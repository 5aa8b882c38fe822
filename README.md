# AICodeDocumention core, modelled in Dafny

AICodeDocumention is a macOS tool. It reads the Swift sources of an Xcode project, lets the user tick the files to include and builds one documentation text from them. It also has a small extractor that reduces a Swift file to its public interface. This project models four parts of it and proves properties about them:

- **The public-interface extractor** (`InterfaceExtraction`, with lemmas in `ExtractorProperties` and the extractor's unit tests in `ExtractorScenarios`).
  - A class `SwiftInterfaceExtractor` holds the fields `result` and `currentInterface`.
  - Its `Visit`/`VisitPost` methods are the visitor callbacks. `Walk` is the depth-first walk.
  - `ExtractPublicInterface` walks a parsed tree and returns the trimmed result.
  - Each method is proved to follow a pure function (`Entered`, `Leave`, `Walked`). The lemmas about those functions state the output format.
- **The file model** (`FileItems`): the `SubType` enum with its raw values, `FileItem`, `determineSubType`, the selected documentation text, the word count and the set of subtypes in a list.
- **The selection operations** (`Selections` for the per-file rules, `ProjectManager` for the class). A class `XcodeProjectManager` holds `documentText`, `wordCount`, `fileList` and `selectedSubtypes`. Its methods reassign `fileList` and are proved against the pure list functions `MarkWhere` and `Rebuilt`.
- **The file list's check box** (`FileListView`): `toggleFileCheck` flips the first file with a given id, in place.

Supporting modules:

- `Wrappers` holds `Option` and `Result`.
- `Strings` holds substring tests, trimming, splitting on a character, the word count and concatenation.
- `SyntaxTree` is the parsed tree the extractor walks. It has classes, structs, protocols, functions, variables and other nodes. Class, struct, protocol and function nodes carry their name. Every declaration carries its modifier list with the list's printed text. Functions carry their signature text and variables their binding text. Every node carries its children; other nodes carry nothing else.

Each `UUID()` a new `FileItem` receives is modelled by a counter field `nextId` on the manager. The class invariant `Valid()` says three things:

- every id in the list is below `nextId`;
- the ids are pairwise distinct;
- `wordCount` is the word count of `documentText`.

Two behaviours of the extractor are easy to misread, and the model keeps both as the code has them:

- **Blocks are one newline apart, with no blank line between them.** Each `visitPost` for a type appends the closed block followed by a single `"\n"` (`SwiftInterfaceExtractor.swift:68`, `:74` and `:80`). The multi-type unit test expects the blocks exactly one newline apart. `FlatFileOutput` and `MultipleScenario` state this.
- **A nested type overwrites the outer buffer.** There is only one `currentInterface` field, and entering a type assigns it. So a type nested in another discards the outer header and the outer members seen so far, and its exit empties the buffer. `NestedTypeOverwritesOuter` states what the walk then gives.

## Model

| member | source | states |
|---|---|---|
| InterfaceExtraction.Entered | AICodeDocumention/Tools/SwiftInterfaceExtractor.swift:22-64 | what a `visit` callback does to the two fields; its meaning is stated by `TypeEntryDiscardsBuffer`, `MemberEmittedIff`, `HiddenMemberOmitted`, `ProtocolMemberEmitted` and `EnteredKeepsResult`, and `Visit` is proved to follow it |
| InterfaceExtraction.Leave | AICodeDocumention/Tools/SwiftInterfaceExtractor.swift:66-82 | what a `visitPost` callback does to the two fields: leaving a type moves the closed buffer to the result; its meaning is stated by `FlushesClosed`, `ResultGainsFlushes` and `ResultAppendOnly`, and `VisitPost` is proved to follow it |
| InterfaceExtraction.Walked | AICodeDocumention/Tools/SwiftInterfaceExtractor.swift:18 | the state after the depth-first walk of one tree; its meaning is stated by `ResultGainsFlushes`, `OneFlushPerType`, `WalkOfFlatTypes` and `FlatTypeBlock`, and `Walk` is proved to follow it |
| InterfaceExtraction.WalkedAll | AICodeDocumention/Tools/SwiftInterfaceExtractor.swift:18 | the state after walking sibling trees in order; its meaning is stated by `WalkedAllAppend`, `ResultGainsFlushesAll` and `WalkAllOfFlatTypes`, and `WalkAll` is proved to follow it |
| InterfaceExtraction.SwiftInterfaceExtractor.constructor | AICodeDocumention/Tools/SwiftInterfaceExtractor.swift:13-14 | both string fields start empty |
| InterfaceExtraction.SwiftInterfaceExtractor.Visit | AICodeDocumention/Tools/SwiftInterfaceExtractor.swift:22-64 | the callback answers skip-children exactly for functions and variables, and the new fields are `Entered(node, old fields)` |
| InterfaceExtraction.SwiftInterfaceExtractor.VisitPost | AICodeDocumention/Tools/SwiftInterfaceExtractor.swift:66-82 | the new fields are `Leave(node, old fields)`: a type's buffer closed with `\n}` and a newline and moved to the result |
| InterfaceExtraction.SwiftInterfaceExtractor.Walk | AICodeDocumention/Tools/SwiftInterfaceExtractor.swift:18 | the depth-first walk leaves the fields at `Walked(node, old fields)` |
| InterfaceExtraction.SwiftInterfaceExtractor.WalkAll | AICodeDocumention/Tools/SwiftInterfaceExtractor.swift:18 | walking the children in order leaves the fields at `WalkedAll(children, old fields)` |
| InterfaceExtraction.SwiftInterfaceExtractor.ExtractPublicInterface | AICodeDocumention/Tools/SwiftInterfaceExtractor.swift:16-20 | a parse failure is returned as is and leaves both fields untouched; otherwise the tree is walked from the current fields and the trimmed result is returned |
| ExtractorProperties.TypeEntryDiscardsBuffer | AICodeDocumention/Tools/SwiftInterfaceExtractor.swift:22-35 | entering a class, struct or protocol asks for its children; whatever the buffer held before makes no difference to the walk of the type; afterwards the buffer starts with `protocol` exactly when the type is a protocol, so the protocol rule applies to a protocol's members up to the first type nested in it (see `NestedTypeOverwritesOuter`) |
| ExtractorProperties.MemberEmittedIff | AICodeDocumention/Tools/SwiftInterfaceExtractor.swift:37-64 | a function or variable appends its line exactly when the buffer starts with `protocol` or it has a `public` or `open` modifier; otherwise nothing changes; the result is never touched |
| ExtractorProperties.HiddenMemberOmitted | AICodeDocumention/Tools/SwiftInterfaceExtractor.swift:38-41 | a member with neither `public` nor `open`, outside a protocol, leaves no trace |
| ExtractorProperties.ProtocolMemberEmitted | AICodeDocumention/Tools/SwiftInterfaceExtractor.swift:53-56 | inside a protocol's buffer every member is appended, whatever its modifiers |
| ExtractorProperties.RenderedStartsWithNewline | AICodeDocumention/Tools/SwiftInterfaceExtractor.swift:47 | every member line starts with a newline, so it cannot change whether the buffer starts with `protocol` |
| ExtractorProperties.MemberChildrenSkipped | AICodeDocumention/Tools/SwiftInterfaceExtractor.swift:49-63 | what is nested inside a function or variable makes no difference to the walk |
| ExtractorProperties.EnteredKeepsResult | AICodeDocumention/Tools/SwiftInterfaceExtractor.swift:22-64 | no `visit` callback changes the result |
| ExtractorProperties.ResultGainsFlushes | AICodeDocumention/Tools/SwiftInterfaceExtractor.swift:66-82 | a walk appends to the result exactly the concatenation of its flushes, in order |
| ExtractorProperties.ResultGainsFlushesAll | AICodeDocumention/Tools/SwiftInterfaceExtractor.swift:66-82 | the same for a sequence of sibling trees |
| ExtractorProperties.OneFlushPerType | AICodeDocumention/Tools/SwiftInterfaceExtractor.swift:66-82 | a walk flushes exactly once per type declaration it reaches; types nested inside a function or variable are not reached, because members are skipped |
| ExtractorProperties.OneFlushPerTypeAll | AICodeDocumention/Tools/SwiftInterfaceExtractor.swift:66-82 | the same for a sequence of sibling trees |
| ExtractorProperties.FlushesClosed | AICodeDocumention/Tools/SwiftInterfaceExtractor.swift:67-68 | every flush ends with `\n}\n` |
| ExtractorProperties.FlushesClosedAll | AICodeDocumention/Tools/SwiftInterfaceExtractor.swift:67-68 | the same for a sequence of sibling trees |
| ExtractorProperties.ResultAppendOnly | AICodeDocumention/Tools/SwiftInterfaceExtractor.swift:68-80 | after any walk the old result is a prefix of the new one |
| ExtractorProperties.NoTypesNoOutput | AICodeDocumention/Tools/SwiftInterfaceExtractor.swift:66-82 | a tree without type declarations adds nothing to the result; members outside any type are dropped |
| ExtractorProperties.WalkWithoutTypes | AICodeDocumention/Tools/SwiftInterfaceExtractor.swift:37-64 | inside a type without nested types, the walk appends the kept member lines to the buffer and leaves the result alone |
| ExtractorProperties.WalkAllWithoutTypes | AICodeDocumention/Tools/SwiftInterfaceExtractor.swift:37-64 | the same for a sequence of sibling trees |
| ExtractorProperties.FlatTypeBlock | AICodeDocumention/Tools/SwiftInterfaceExtractor.swift:22-82 | a type with no nested types appends its block (header, kept lines, `\n}`) and a newline, and leaves the buffer empty |
| ExtractorProperties.EmptyTypeBlock | AICodeDocumention/Tools/SwiftInterfaceExtractor.swift:22-82 | a type with no kept members appends `<kind> <Name> {\n}` and a newline |
| ExtractorProperties.AllFlatIff | AICodeDocumention/Tools/SwiftInterfaceExtractor.swift:22-35 | the recursive flatness test holds exactly when every listed type has no nested types |
| ExtractorProperties.WalkOfFlatTypes | AICodeDocumention/Tools/SwiftInterfaceExtractor.swift:16-82 | when no type is nested, a walk adds the blocks of the top-level types, each with a newline, in source order |
| ExtractorProperties.WalkAllOfFlatTypes | AICodeDocumention/Tools/SwiftInterfaceExtractor.swift:16-82 | the same for a sequence of sibling trees |
| ExtractorProperties.BlocksTextIsJoin | AICodeDocumention/Tools/SwiftInterfaceExtractor.swift:68 | the blocks, each followed by a newline, are the blocks joined by one newline plus a final newline |
| ExtractorProperties.FlatFileOutput | AICodeDocumention/Tools/SwiftInterfaceExtractor.swift:16-20 | for a file of N flat top-level types, the trimmed output is their N blocks in order joined by one newline; no types gives the empty string |
| ExtractorProperties.WalkedAllAppend | AICodeDocumention/Tools/SwiftInterfaceExtractor.swift:18 | walking two runs of siblings is walking the first, then the second |
| ExtractorProperties.NestedTypeOverwritesOuter | AICodeDocumention/Tools/SwiftInterfaceExtractor.swift:22-35 | a nested type replaces the outer buffer; the outer members before it are lost, and those after it are appended to an empty buffer and flushed with a second `}` |
| ExtractorProperties.ResultNotResetBetweenCalls | AICodeDocumention/Tools/SwiftInterfaceExtractor.swift:13-20 | walking the same flat file twice on one instance yields its blocks twice: the result is never reset |
| ExtractorScenarios.ClassScenario | AICodeDocumentionTests/SwiftInterfaceExtractorTests.swift:24-43 | the test class prints its header, its public variable and public function lines and `}`; the private members do not appear |
| ExtractorScenarios.StructScenario | AICodeDocumentionTests/SwiftInterfaceExtractorTests.swift:45-64 | the same for a struct whose private members come first |
| ExtractorScenarios.ProtocolScenario | AICodeDocumentionTests/SwiftInterfaceExtractorTests.swift:66-83 | every protocol requirement is printed, without modifiers |
| ExtractorScenarios.MultipleScenario | AICodeDocumentionTests/SwiftInterfaceExtractorTests.swift:85-120 | a class, a struct and a protocol print in source order, one newline apart, with no blank line between them |
| Strings.Contains | AICodeDocumention/Services/XcodeProjectManager.swift:164-177 | the substring test of the classifier; `ContainsIff` states that it holds exactly when the pattern occurs at some position |
| Strings.Trim | AICodeDocumention/Tools/SwiftInterfaceExtractor.swift:19 | whitespace trimming; `TrimSpec`, `TrimIdempotent` and `TrimAround` state what it keeps and drops |
| Strings.ContainsIff | AICodeDocumention/Services/XcodeProjectManager.swift:164-177 | the recursive substring test holds exactly when the pattern occurs at some position |
| Strings.TrimSpec | AICodeDocumention/Tools/SwiftInterfaceExtractor.swift:19 | the trimmed string is a slice of the input with only whitespace around it, and it neither starts nor ends with whitespace |
| Strings.TrimIdempotent | AICodeDocumention/Tools/SwiftInterfaceExtractor.swift:19 | trimming twice is trimming once |
| Strings.TrimAround | AICodeDocumention/Tools/SwiftInterfaceExtractor.swift:44-46 | a word wrapped in whitespace trims to the word |
| Strings.JoinSplitOn | AICodeDocumention/Services/XcodeProjectManager.swift:30 | joining the pieces of a split with the separator gives the string back |
| Strings.SplitOnJoinWith | AICodeDocumention/Services/XcodeProjectManager.swift:30 | splitting a join of separator-free pieces gives the pieces back |
| Strings.Words | AICodeDocumention/Services/XcodeProjectManager.swift:30 | the split keeps only non-empty pieces, none of which holds a space |
| Strings.WordCount | AICodeDocumention/Services/XcodeProjectManager.swift:29-31 | the number of words of a text; `WordCountOfSpaces`, `WordCountOfWord` and `WordCountAroundSpace` state how it counts |
| Strings.WordCountOfSpaces | AICodeDocumention/Services/XcodeProjectManager.swift:43-46 | a text of spaces only, or the empty text, has no words |
| Strings.WordCountOfWord | AICodeDocumention/Services/XcodeProjectManager.swift:29-31 | a non-empty text without spaces is one word |
| Strings.WordCountAroundSpace | AICodeDocumention/Services/XcodeProjectManager.swift:29-31 | a space separates: the words of `a + " " + b` are those of `a` followed by those of `b`, and the counts add up |
| FileItems.RawValue | AICodeDocumention/Services/XcodeProjectManager.swift:13-22 | the enum's raw strings; `AllCasesComplete` states that they are distinct |
| FileItems.FileItem.WordCount | AICodeDocumention/Services/XcodeProjectManager.swift:29-31 | a file's `wordCount`, the word count of its content, whose meaning the `Strings.WordCount` lemmas state |
| FileItems.DetermineSubType | AICodeDocumention/Services/XcodeProjectManager.swift:163-180 | the classifier's if-chain; `DetermineSubTypeIsFirstMatch` and `DetermineSubTypeFirstRule` state that it returns the subtype of the first satisfied rule, or `Other` |
| FileItems.AllCasesComplete | AICodeDocumention/Services/XcodeProjectManager.swift:13-22 | `allCases` lists every subtype once, in declaration order, and the raw values are distinct |
| FileItems.FirstMatchSpec | AICodeDocumention/Services/XcodeProjectManager.swift:163-180 | the ordered rule scan returns the subtype of the first satisfied rule, or `Other` when none is satisfied |
| FileItems.DetermineSubTypeIsFirstMatch | AICodeDocumention/Services/XcodeProjectManager.swift:163-180 | the if-chain equals the ordered scan over the seven rules |
| FileItems.DetermineSubTypeFirstRule | AICodeDocumention/Services/XcodeProjectManager.swift:163-180 | the result is the subtype of the first rule the content satisfies, and it is `Other` exactly when no rule is satisfied |
| FileItems.SwiftUIRuleWins | AICodeDocumention/Services/XcodeProjectManager.swift:164-165 | content holding `import SwiftUI`, `struct` and `: View` is a SwiftUI view, whatever else it holds |
| FileItems.WithoutClassOnlyViewOrOther | AICodeDocumention/Services/XcodeProjectManager.swift:166-177 | content without `class` is either a SwiftUI view or `Other` |
| FileItems.NameIgnored | AICodeDocumention/Services/XcodeProjectManager.swift:163-180 | the file name does not affect the classification |
| FileItems.Selected | AICodeDocumention/Services/XcodeProjectManager.swift:150 | the file filter; `SelectedIff`, `SelectedSnoc`, `SelectedAppend` and `SelectedEmptyIff` state which files it keeps and in what order |
| FileItems.Entries | AICodeDocumention/Services/XcodeProjectManager.swift:151 | the text of each file, in order, one per file; it keeps the length of the list |
| FileItems.Documentation | AICodeDocumention/Services/XcodeProjectManager.swift:149-155 | the selected documentation text; `DocumentationAppend`, `DocumentationOfOne`, `DocumentationSnoc` and `DocumentationEmptyIff` state what it holds |
| FileItems.SelectedIff | AICodeDocumention/Services/XcodeProjectManager.swift:150 | every file the filter keeps is selected and comes from the list, and every selected file of the list is kept |
| FileItems.SelectedSnoc | AICodeDocumention/Services/XcodeProjectManager.swift:150 | a file added at the end of the list is kept at the end of the selection when it is selected, and the selection is unchanged otherwise |
| FileItems.SelectedAppend | AICodeDocumention/Services/XcodeProjectManager.swift:150 | the selection of two lists one after the other is the first's followed by the second's, so the filter keeps the order of the list |
| FileItems.SelectedEmptyIff | AICodeDocumention/Services/XcodeProjectManager.swift:150 | the filter keeps nothing exactly when no file is selected |
| FileItems.DocumentationAppend | AICodeDocumention/Services/XcodeProjectManager.swift:150-151 | the documentation of two lists one after the other is the first's followed by the second's |
| FileItems.DocumentationOfOne | AICodeDocumention/Services/XcodeProjectManager.swift:151 | one file contributes `\n` + name + `\n` + content + `\n` when selected, and nothing otherwise |
| FileItems.DocumentationSnoc | AICodeDocumention/Services/XcodeProjectManager.swift:150-151 | a file added at the end adds its entry at the end, if it is selected |
| FileItems.DocumentationEmptyIff | AICodeDocumention/Services/XcodeProjectManager.swift:149-155 | the documentation is empty exactly when no file is selected |
| FileItems.SubtypesOf | AICodeDocumention/Services/XcodeProjectManager.swift:51-53 | the set of subtypes in a list; `SubtypesOfIff` states which subtypes it holds |
| FileItems.SubtypesOfIff | AICodeDocumention/Services/XcodeProjectManager.swift:51-53 | a subtype is in the set exactly when some file in the list has it |
| Selections.NotIn | AICodeDocumention/Services/XcodeProjectManager+Selections.swift:68 | the subtypes acted on are exactly those not in the chosen set |
| Selections.MarkWhere | AICodeDocumention/Services/XcodeProjectManager+Selections.swift:20-73 | the selection `map` over the list; it keeps the length of the list, and `MarkWhereAt` states what it does at each position |
| Selections.MarkWhereAt | AICodeDocumention/Services/XcodeProjectManager+Selections.swift:20-73 | only files whose subtype is in the set change, and only their flag, which becomes the value or its negation; ids, names, contents, subtypes and the length are kept |
| Selections.FlipTwice | AICodeDocumention/Services/XcodeProjectManager+Selections.swift:20-28 | flipping the same files twice restores the list, so `toggleViews` and `toggle` are involutions |
| Selections.SetTwice | AICodeDocumention/Services/XcodeProjectManager+Selections.swift:35-53 | setting the same files to the same value twice is the same as once |
| Selections.DeselectNonMatchingSound | AICodeDocumention/Services/XcodeProjectManager+Selections.swift:65-73 | afterwards every selected file has a chosen subtype, and files of a chosen subtype are untouched |
| Selections.MarkWhereKeepsSubtypes | AICodeDocumention/Services/XcodeProjectManager+Selections.swift:20-73 | no selection operation changes which subtypes occur in the list |
| Selections.Rebuilt | AICodeDocumention/Services/XcodeProjectManager+Selections.swift:10-18 | the rebuilding `map` of `selectAll` and `selectNone`; it keeps the length of the list, and `RebuiltAt` states what it does at each position |
| Selections.RebuiltAt | AICodeDocumention/Services/XcodeProjectManager+Selections.swift:10-18 | every rebuilt file keeps its name, content and subtype, gets the flag, and gets a new id; the new ids are pairwise distinct |
| Selections.RebuiltIsSetAll | AICodeDocumention/Services/XcodeProjectManager+Selections.swift:10-18 | apart from the ids, a rebuild equals setting the flag of every file |
| ProjectManager.XcodeProjectManager.constructor | AICodeDocumention/Services/XcodeProjectManager.swift:43-50 | empty text, zero words, no files, no chosen subtypes; the invariant holds |
| ProjectManager.XcodeProjectManager.UniqueSubTypesInFileItems | AICodeDocumention/Services/XcodeProjectManager.swift:51-53 | exactly the subtypes some file in the list has |
| ProjectManager.XcodeProjectManager.SetDocumentText | AICodeDocumention/Services/XcodeProjectManager.swift:43-46 | assigning the text recounts its words; nothing else changes |
| ProjectManager.XcodeProjectManager.GenerateSelectedDocumentation | AICodeDocumention/Services/XcodeProjectManager.swift:149-155 | the text becomes the entries of the selected files in order, with its word count; the file list is unchanged |
| ProjectManager.XcodeProjectManager.GenerateDocumentation | AICodeDocumention/Services/XcodeProjectManager.swift:123-143 | every file read is appended to the list, selected, with a fresh id; earlier files stay; the text becomes the documentation of the new files |
| ProjectManager.ReadSources | AICodeDocumention/Services/XcodeProjectManager.swift:126-139 | the loop makes one selected item per file read, named by its path or `Unnamed`, and builds the documentation of those items |
| ProjectManager.LoadedAll | AICodeDocumention/Services/XcodeProjectManager.swift:129-136 | the items made for the files read, in order; it has one item per file, and `LoadedAllAt` states what each item holds |
| ProjectManager.LoadedAllAt | AICodeDocumention/Services/XcodeProjectManager.swift:134-136 | the i-th new item is made from the i-th file read: it is selected, has id `firstId + i`, is named by the file's path or `Unnamed`, holds the file's content and is classified by that content |
| ProjectManager.LoadedDocumentation | AICodeDocumention/Services/XcodeProjectManager.swift:138-143 | the text built while reading equals the selected documentation of the new items, since they are all selected |
| ProjectManager.GeneratedEmptyIff | AICodeDocumention/Services/XcodeProjectManager.swift:123-143 | that text is empty exactly when no file was read |
| ProjectManager.AppendLoadedKeepsIds | AICodeDocumention/Services/XcodeProjectManager.swift:25 | appending new items keeps the ids distinct and below the counter |
| ProjectManager.MarkEach | AICodeDocumention/Services/XcodeProjectManager+Selections.swift:20-73 | the per-file `map` with its `updatedFile` copy computes `MarkWhere` |
| ProjectManager.RebuildEach | AICodeDocumention/Services/XcodeProjectManager+Selections.swift:10-18 | the rebuilding `map` computes `Rebuilt` |
| ProjectManager.XcodeProjectManager.MarkFiles | AICodeDocumention/Services/XcodeProjectManager+Selections.swift:20-73 | the list becomes `MarkWhere` of the old list; text, word count, chosen subtypes and the counter are unchanged; the invariant is kept |
| ProjectManager.XcodeProjectManager.Select | AICodeDocumention/Services/XcodeProjectManager+Selections.swift:35-43 | files of a chosen subtype become selected; all else is unchanged |
| ProjectManager.XcodeProjectManager.Deselect | AICodeDocumention/Services/XcodeProjectManager+Selections.swift:45-53 | files of a chosen subtype become unselected; all else is unchanged |
| ProjectManager.XcodeProjectManager.Toggle | AICodeDocumention/Services/XcodeProjectManager+Selections.swift:55-63 | files of a chosen subtype flip; all else is unchanged |
| ProjectManager.XcodeProjectManager.ToggleViews | AICodeDocumention/Services/XcodeProjectManager+Selections.swift:20-28 | SwiftUI views and UIKit view controllers flip; all else is unchanged |
| ProjectManager.XcodeProjectManager.DeselectNonMatching | AICodeDocumention/Services/XcodeProjectManager+Selections.swift:65-73 | files of a subtype not chosen become unselected; all else is unchanged |
| ProjectManager.XcodeProjectManager.ToggleFileTypes | AICodeDocumention/Services/XcodeProjectManager+Selections.swift:30-32 | nothing changes |
| ProjectManager.XcodeProjectManager.RebuildFiles | AICodeDocumention/Services/XcodeProjectManager+Selections.swift:10-18 | the list becomes `Rebuilt` of the old list with ids from the counter, and the counter moves past them; the invariant is kept |
| ProjectManager.XcodeProjectManager.SelectAll | AICodeDocumention/Services/XcodeProjectManager+Selections.swift:10-13 | every file is rebuilt selected, with a new id; the counter moves past the new ids; text, word count and chosen subtypes are unchanged |
| ProjectManager.XcodeProjectManager.SelectNone | AICodeDocumention/Services/XcodeProjectManager+Selections.swift:15-18 | every file is rebuilt unselected, with a new id; the counter moves past the new ids; text, word count and chosen subtypes are unchanged |
| ProjectManager.NothingSelectedAfterSelectNone | AICodeDocumention/Services/XcodeProjectManager+Selections.swift:15-18 | after `selectNone` the selected documentation is empty |
| FileListView.FirstIndexWithId | AICodeDocumention/FileListView.swift:41 | the index found holds the id and no earlier index does; there is none exactly when no file holds the id |
| FileListView.ToggleFirstWithId | AICodeDocumention/FileListView.swift:40-44 | the list after ticking a row; `OnlyFirstMatchFlips`, `NoMatchUnchanged`, `ToggleTwiceRestores` and `ToggleKeepsIds` state what it changes |
| FileListView.ToggleFileCheck | AICodeDocumention/FileListView.swift:40-44 | the manager's list becomes the list with the first file of that id flipped; nothing else in the manager changes; the invariant is kept |
| FileListView.OnlyFirstMatchFlips | AICodeDocumention/FileListView.swift:40-43 | only the first file with the id changes, only its flag flips, and the length is kept |
| FileListView.NoMatchUnchanged | AICodeDocumention/FileListView.swift:41 | with no file of that id the list is unchanged |
| FileListView.ToggleTwiceRestores | AICodeDocumention/FileListView.swift:42 | ticking the same row twice restores the list |
| FileListView.ToggleKeepsIds | AICodeDocumention/FileListView.swift:40-44 | ticking a row keeps every id at its index |

## Left out

- The Swift parser (`SyntaxParser.parse`) is a foreign library. `ExtractPublicInterface` takes the parse outcome as a `Result`. The printed texts of modifier lists, signatures and bindings are opaque strings carried on the nodes.
- `Strings.Trim` strips a fixed set of whitespace and newline characters. It does not follow Foundation's full Unicode character-set semantics.
- `Strings.Contains` is a code-unit substring test. It does not model Unicode canonical equivalence.
- Strings.WordCount: splits on the code point U+0020, whereas Swift's `split(separator: " ")` compares whole characters (grapheme clusters). A space followed by a combining mark is one character in Swift and is not a separator there. So for text such as `"x \u{301}y"` Swift counts one word and the model counts two, and `WordCountAroundSpace` holds of the model only.
- Project I/O is not modelled: `selectProjectFolder`, `processSelectedProjectFolder`, `loadProjectTargets` and `copyToClipboard`.
  - Open panels, the file manager, the Xcode project reader and the pasteboard are outside the model.
- ProjectManager.XcodeProjectManager.GenerateDocumentation: models only the part that works on the files already read. It leaves out:
  - choosing the targets;
  - resolving paths;
  - skipping directories;
  - the error branch where a read fails part-way.
- UUID generation is modelled as a counter that hands out ids no file in the list holds. Random values are not modelled.
- `@Published` change notification, `ObservableObject` and the `shared` singleton are not modelled. Neither are `projectURL`, `xcodeprojURL`, `projectTargets` and `selectedTarget`, which only the I/O code uses.
- The SwiftUI views are not modelled, beyond `toggleFileCheck`. That covers the content view, the toolbars, the file-type picker and the app entry point.
  - `selectedSubtypes` is changed only by the picker, so no method here changes it.
- The old `AICodeDocumention/ContentView.swift` is not part of this model: it is a file-reading loop with view code.
- The CoreData tests are not part of this model, and neither are the commented-out project manager tests. They refer to code not in the repository.
