/**
 * The project manager's value types and its pure helpers: the file
 * classification `SubType`, the `FileItem` record, the content-based
 * classifier `determineSubType`, the text that documentation generation
 * builds from the selected files, and the set of subtypes present in a list.
 */
module FileItems {
  import opened Strings

  /** The kinds of source file the manager tells apart. */
  datatype SubType =
    | SwiftUIView
    | UIViewController
    | Networking
    | Utility
    | Manager
    | ViewModel
    | Service
    | Other

  /** The enum's raw values, as shown to the user. */
  function RawValue(t: SubType): string {
    match t
    case SwiftUIView => "SwiftUI View"
    case UIViewController => "UIKit ViewController"
    case Networking => "Networking"
    case Utility => "Utility"
    case Manager => "Manager"
    case ViewModel => "ViewModel"
    case Service => "Service"
    case Other => "Other"
  }

  /** `SubType.allCases`, in declaration order. */
  const AllCases: seq<SubType> := [SwiftUIView, UIViewController, Networking, Utility, Manager, ViewModel, Service, Other]

  /** Every subtype is listed once in `AllCases`, and no two subtypes share a raw value. */
  lemma AllCasesComplete(t: SubType, u: SubType)
    ensures t in AllCases && |AllCases| == 8
    ensures forall i, j :: 0 <= i < j < |AllCases| ==> AllCases[i] != AllCases[j]
    ensures RawValue(t) == RawValue(u) <==> t == u
  {
  }

  /** The set of every subtype. */
  const AllSubTypes: set<SubType> := set t | t in AllCases

  lemma InAllSubTypes(t: SubType)
    ensures t in AllSubTypes
  {
    AllCasesComplete(t, t);
  }

  /**
   * A file's identity. `FileItem` takes a fresh `UUID()` each time one is
   * built; here ids are numbers handed out by the manager, fresh by construction.
   */
  type Id = nat

  datatype FileItem = FileItem(id: Id, name: string, content: string, isSelected: bool, subtype: SubType)
  {
    /** `wordCount`: the number of non-empty pieces of the content split on spaces. */
    function WordCount(): nat {
      Strings.WordCount(content)
    }
  }

  // ----- determineSubType -----

  /** `determineSubType(name:content:)`: the first rule of the chain whose three substrings all occur in the content. */
  function DetermineSubType(name: string, content: string): SubType {
    if Contains(content, "import SwiftUI") && Contains(content, "struct") && Contains(content, ": View") then SwiftUIView
    else if Contains(content, "import UIKit") && Contains(content, "class") && Contains(content, ": UIViewController") then UIViewController
    else if Contains(content, "import Foundation") && Contains(content, "class") && Contains(content, "Networking") then Networking
    else if Contains(content, "import Foundation") && Contains(content, "class") && Contains(content, "Utility") then Utility
    else if Contains(content, "import Foundation") && Contains(content, "class") && Contains(content, "Manager") then Manager
    else if Contains(content, "import Foundation") && Contains(content, "class") && Contains(content, "ViewModel") then ViewModel
    else if Contains(content, "import Foundation") && Contains(content, "class") && Contains(content, "Service") then Service
    else Other
  }

  /** One classification rule: an import, a declaration keyword and a marker, and the subtype they give. */
  datatype Rule = Rule(importLine: string, keyword: string, marker: string, subtype: SubType)

  predicate Matches(r: Rule, content: string) {
    Contains(content, r.importLine) && Contains(content, r.keyword) && Contains(content, r.marker)
  }

  /** The classification rules, in the order they are tried. */
  const Rules: seq<Rule> := [
    Rule("import SwiftUI", "struct", ": View", SwiftUIView),
    Rule("import UIKit", "class", ": UIViewController", UIViewController),
    Rule("import Foundation", "class", "Networking", Networking),
    Rule("import Foundation", "class", "Utility", Utility),
    Rule("import Foundation", "class", "Manager", Manager),
    Rule("import Foundation", "class", "ViewModel", ViewModel),
    Rule("import Foundation", "class", "Service", Service)
  ]

  /** The subtype of the first rule in `rules` that matches, or `Other` when none does. */
  function FirstMatch(rules: seq<Rule>, content: string): SubType {
    if rules == [] then Other
    else if Matches(rules[0], content) then rules[0].subtype
    else FirstMatch(rules[1..], content)
  }

  /** `FirstMatch` gives the subtype of the rule at the first matching index, or `Other` when none matches. */
  lemma {:induction false} FirstMatchSpec(rules: seq<Rule>, content: string)
    ensures (forall i :: 0 <= i < |rules| ==> !Matches(rules[i], content)) ==> FirstMatch(rules, content) == Other
    ensures forall i :: 0 <= i < |rules| && Matches(rules[i], content) && (forall j :: 0 <= j < i ==> !Matches(rules[j], content))
                        ==> FirstMatch(rules, content) == rules[i].subtype
  {
    if rules != [] {
      FirstMatchSpec(rules[1..], content);
      forall i | 0 <= i < |rules| && Matches(rules[i], content) && (forall j :: 0 <= j < i ==> !Matches(rules[j], content))
        ensures FirstMatch(rules, content) == rules[i].subtype
      {
        if i > 0 {
          assert !Matches(rules[0], content);
          assert rules[i] == rules[1..][i - 1];
          forall j | 0 <= j < i - 1
            ensures !Matches(rules[1..][j], content)
          {
            assert rules[1..][j] == rules[j + 1];
          }
        }
      }
      if forall i :: 0 <= i < |rules| ==> !Matches(rules[i], content) {
        forall i | 0 <= i < |rules| - 1
          ensures !Matches(rules[1..][i], content)
        {
          assert rules[1..][i] == rules[i + 1];
        }
      }
    }
  }

  /** The if-chain is the first-match classification over `Rules`. */
  lemma DetermineSubTypeIsFirstMatch(name: string, content: string)
    ensures DetermineSubType(name, content) == FirstMatch(Rules, content)
  {
    FirstMatchSpec(Rules, content);
    if Matches(Rules[0], content) {
    } else if Matches(Rules[1], content) {
    } else if Matches(Rules[2], content) {
    } else if Matches(Rules[3], content) {
    } else if Matches(Rules[4], content) {
    } else if Matches(Rules[5], content) {
    } else if Matches(Rules[6], content) {
    } else {
    }
  }

  /**
   * `determineSubType` returns the subtype of the first satisfied rule, and
   * `Other` exactly when no rule is satisfied.
   */
  lemma DetermineSubTypeFirstRule(name: string, content: string)
    ensures forall i :: 0 <= i < |Rules| && Matches(Rules[i], content) && (forall j :: 0 <= j < i ==> !Matches(Rules[j], content))
                        ==> DetermineSubType(name, content) == Rules[i].subtype
    ensures DetermineSubType(name, content) == Other <==> forall i :: 0 <= i < |Rules| ==> !Matches(Rules[i], content)
  {
    DetermineSubTypeIsFirstMatch(name, content);
    FirstMatchSpec(Rules, content);
    if exists i :: 0 <= i < |Rules| && Matches(Rules[i], content) {
      var k :| 0 <= k < |Rules| && Matches(Rules[k], content);
      FirstMatching(content, k);
    }
  }

  /** Among the rules that match, there is a first one; its subtype is never `Other`. */
  lemma FirstMatching(content: string, k: nat)
    requires k < |Rules| && Matches(Rules[k], content)
    ensures exists i :: 0 <= i <= k && Matches(Rules[i], content) && (forall j :: 0 <= j < i ==> !Matches(Rules[j], content))
    ensures forall i :: 0 <= i < |Rules| ==> Rules[i].subtype != Other
    decreases k
  {
    if !(forall j :: 0 <= j < k ==> !Matches(Rules[j], content)) {
      var j :| 0 <= j < k && Matches(Rules[j], content);
      FirstMatching(content, j);
    }
  }

  /** Content with `import SwiftUI`, `struct` and `: View` is a SwiftUI view, whatever else it holds. */
  lemma SwiftUIRuleWins(name: string, content: string)
    requires Contains(content, "import SwiftUI") && Contains(content, "struct") && Contains(content, ": View")
    ensures DetermineSubType(name, content) == SwiftUIView
  {
  }

  /** Every rule after the first needs `class`: content without it is a SwiftUI view or `Other`. */
  lemma WithoutClassOnlyViewOrOther(name: string, content: string)
    requires !Contains(content, "class")
    ensures DetermineSubType(name, content) == SwiftUIView || DetermineSubType(name, content) == Other
    ensures forall i :: 1 <= i < |Rules| ==> !Matches(Rules[i], content)
  {
  }

  /** Only the content decides: the file name plays no part. */
  lemma NameIgnored(name1: string, name2: string, content: string)
    ensures DetermineSubType(name1, content) == DetermineSubType(name2, content)
  {
  }

  // ----- The documentation text -----

  /** The text one file contributes: a newline, its name, a newline, its content, a newline. */
  function Entry(f: FileItem): string {
    "\n" + f.name + "\n" + f.content + "\n"
  }

  /** `filter { $0.isSelected }`: the selected files, in order. */
  function Selected(items: seq<FileItem>): seq<FileItem>
    decreases items
  {
    if items == [] then []
    else Selected(items[..|items| - 1]) + (if items[|items| - 1].isSelected then [items[|items| - 1]] else [])
  }

  /** `map { entry }.joined()` over the selected files. */
  function Documentation(items: seq<FileItem>): string {
    Concat(Entries(Selected(items)))
  }

  function Entries(items: seq<FileItem>): (es: seq<string>)
    ensures |es| == |items|
    decreases items
  {
    if items == [] then [] else Entries(items[..|items| - 1]) + [Entry(items[|items| - 1])]
  }

  /** Filtering distributes over concatenation. */
  lemma {:induction false} SelectedAppend(a: seq<FileItem>, b: seq<FileItem>)
    ensures Selected(a + b) == Selected(a) + Selected(b)
    decreases b
  {
    if b == [] {
      assert a + b == a;
    } else {
      var front := b[..|b| - 1];
      assert (a + b)[..|a + b| - 1] == a + front;
      assert (a + b)[|a + b| - 1] == b[|b| - 1];
      SelectedAppend(a, front);
    }
  }

  /** Keeping a file at the end keeps it at the end of the selection, when it is selected. */
  lemma SelectedSnoc(items: seq<FileItem>, f: FileItem)
    ensures Selected(items + [f]) == Selected(items) + (if f.isSelected then [f] else [])
  {
    assert (items + [f])[..|items|] == items;
  }

  /**
   * The filter keeps exactly the selected files of `items`: every file it
   * keeps is selected and comes from `items`, and every selected file of
   * `items` is kept. (Order is kept too: see `SelectedAppend` and `SelectedSnoc`.)
   */
  lemma {:induction false} SelectedIff(items: seq<FileItem>)
    ensures forall f :: f in Selected(items) ==> f.isSelected && f in items
    ensures forall i :: 0 <= i < |items| && items[i].isSelected ==> items[i] in Selected(items)
    decreases items
  {
    if items != [] {
      var front := items[..|items| - 1];
      var last := items[|items| - 1];
      SelectedIff(front);
      SelectedSnoc(front, last);
      assert items == front + [last];
      forall f | f in Selected(items)
        ensures f.isSelected && f in items
      {
        if f in Selected(front) {
          var k :| 0 <= k < |front| && front[k] == f;
          assert items[k] == f;
        } else {
          assert f == last;
        }
      }
      forall i | 0 <= i < |items| && items[i].isSelected
        ensures items[i] in Selected(items)
      {
        if i < |front| {
          assert items[i] == front[i];
          assert items[i] in Selected(front);
        } else {
          assert items[i] == last;
        }
      }
    }
  }

  /** The filter keeps nothing exactly when no file is selected. */
  lemma {:induction false} SelectedEmptyIff(items: seq<FileItem>)
    ensures Selected(items) == [] <==> forall i :: 0 <= i < |items| ==> !items[i].isSelected
    decreases items
  {
    if items != [] {
      var front := items[..|items| - 1];
      SelectedEmptyIff(front);
      assert forall i :: 0 <= i < |front| ==> front[i] == items[i];
    }
  }

  lemma {:induction false} EntriesAppend(a: seq<FileItem>, b: seq<FileItem>)
    ensures Entries(a + b) == Entries(a) + Entries(b)
    decreases b
  {
    if b == [] {
      assert a + b == a;
    } else {
      var front := b[..|b| - 1];
      assert (a + b)[..|a + b| - 1] == a + front;
      assert (a + b)[|a + b| - 1] == b[|b| - 1];
      EntriesAppend(a, front);
    }
  }

  /** The documentation of two lists one after the other is the first's followed by the second's. */
  lemma DocumentationAppend(a: seq<FileItem>, b: seq<FileItem>)
    ensures Documentation(a + b) == Documentation(a) + Documentation(b)
  {
    SelectedAppend(a, b);
    EntriesAppend(Selected(a), Selected(b));
    ConcatAppend(Entries(Selected(a)), Entries(Selected(b)));
  }

  /** One file's documentation: its entry when it is selected, nothing otherwise. */
  lemma DocumentationOfOne(f: FileItem)
    ensures Documentation([f]) == if f.isSelected then Entry(f) else ""
  {
    assert [f][..0] == [];
    if f.isSelected {
      assert Selected([f]) == [] + [f] == [f];
      assert Entries([f]) == [] + [Entry(f)] == [Entry(f)];
      ConcatSnoc([], Entry(f));
      assert [] + [Entry(f)] == [Entry(f)];
    } else {
      assert Selected([f]) == [] + [] == [];
    }
  }

  /** A file added at the end contributes its entry at the end, when it is selected. */
  lemma DocumentationSnoc(items: seq<FileItem>, f: FileItem)
    ensures Documentation(items + [f]) == Documentation(items) + (if f.isSelected then Entry(f) else "")
  {
    DocumentationAppend(items, [f]);
    DocumentationOfOne(f);
  }

  /** The documentation is empty exactly when no file is selected. */
  lemma DocumentationEmptyIff(items: seq<FileItem>)
    ensures Documentation(items) == "" <==> forall i :: 0 <= i < |items| ==> !items[i].isSelected
  {
    SelectedEmptyIff(items);
    var sel := Selected(items);
    if sel != [] {
      var front := sel[..|sel| - 1];
      assert Entries(sel) == Entries(front) + [Entry(sel[|sel| - 1])];
      ConcatSnoc(Entries(front), Entry(sel[|sel| - 1]));
      assert |Entry(sel[|sel| - 1])| > 0;
    }
  }

  // ----- uniqueSubTypesInFileItems -----

  /** `Set(items.map { $0.subtype })`. */
  function SubtypesOf(items: seq<FileItem>): set<SubType>
    decreases items
  {
    if items == [] then {} else SubtypesOf(items[..|items| - 1]) + {items[|items| - 1].subtype}
  }

  /** A subtype is in the set exactly when some item has it. */
  lemma {:induction false} SubtypesOfIff(items: seq<FileItem>)
    ensures forall t :: t in SubtypesOf(items) <==> exists i :: 0 <= i < |items| && items[i].subtype == t
    decreases items
  {
    if items != [] {
      var front := items[..|items| - 1];
      var last := items[|items| - 1];
      SubtypesOfIff(front);
      assert forall i :: 0 <= i < |front| ==> front[i] == items[i];
      assert SubtypesOf(items) == SubtypesOf(front) + {last.subtype};
      forall t | t in SubtypesOf(items)
        ensures exists i :: 0 <= i < |items| && items[i].subtype == t
      {
        if t == last.subtype {
          assert items[|items| - 1].subtype == t;
        } else {
          assert t in SubtypesOf(front);
          var k :| 0 <= k < |front| && front[k].subtype == t;
          assert items[k].subtype == t;
        }
      }
      forall t | exists i :: 0 <= i < |items| && items[i].subtype == t
        ensures t in SubtypesOf(items)
      {
        var k :| 0 <= k < |items| && items[k].subtype == t;
        if k < |front| {
          assert front[k].subtype == t;
          assert t in SubtypesOf(front);
        } else {
          assert t == last.subtype;
        }
      }
    }
  }
}
