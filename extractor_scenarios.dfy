/**
 * The extractor's four unit tests, as lemmas: each input file is written as
 * the tree the parser makes of it, and the expected output as the lines of
 * the test's multi-line literal joined by single newlines.
 *
 * Modifier lists carry their leading trivia (the newline and indentation
 * before the first modifier) and function signatures the space before the
 * body's `{`, as the parser prints them; trimming removes both.
 */
module ExtractorScenarios {
  import opened Strings
  import opened SyntaxTree
  import opened InterfaceExtraction
  import opened ExtractorProperties

  /** A one-word modifier list as the parser prints it: the leading trivia, the word, a space. */
  function Modifier(word: string, leading: string): (m: Modifiers)
    ensures m.names == [word]
  {
    Modifiers([word], leading + word + " ")
  }

  const Indent := "\n    "

  lemma IndentIsWhitespace()
    ensures forall k :: 0 <= k < |Indent| ==> IsWhitespace(Indent[k])
  {
  }

  /** The member lines `ls`, each after a newline. */
  function Indented(ls: seq<string>): string
    decreases ls
  {
    if ls == [] then "" else Indented(ls[..|ls| - 1]) + ("\n" + ls[|ls| - 1])
  }

  /** One line more at the end of the indented lines. */
  lemma IndentedSnoc(ls: seq<string>, l: string)
    ensures Indented(ls + [l]) == Indented(ls) + ("\n" + l)
  {
    assert (ls + [l])[..|ls|] == ls;
  }

  /** A header followed by newline-led lines is the join of the header and the lines. */
  lemma {:induction false} JoinedLines(header: string, ls: seq<string>)
    ensures header + Indented(ls) == JoinWith([header] + ls, '\n')
    decreases ls
  {
    if ls == [] {
      assert [header] + ls == [header];
    } else {
      var front := ls[..|ls| - 1];
      var last := ls[|ls| - 1];
      JoinedLines(header, front);
      assert [header] + ls == ([header] + front) + [last];
      JoinWithAppend([header] + front, last, '\n');
      AppendAssoc(header, Indented(front), "\n" + last);
      AppendAssoc(header + Indented(front), "\n", last);
    }
  }

  /** A flat type's block, line by line: its header, its kept member lines, the closing brace. */
  lemma BlockLines(t: Node, header: string, ls: seq<string>)
    requires t.IsTypeDecl() && Header(t) == header
    requires LinesAll(t.children, t.ProtocolDecl?) == Indented(ls)
    ensures Block(t) == JoinWith([header] + ls + ["}"], '\n')
  {
    JoinedLines(header, ls + ["}"]);
    IndentedSnoc(ls, "}");
    assert [header] + (ls + ["}"]) == [header] + ls + ["}"];
    assert "\n" + "}" == "\n}";
    AppendAssoc(header, Indented(ls), "\n}");
  }

  /** A one-type file prints as that type's block. */
  lemma SingleTypeFile(root: Node, t: Node)
    requires root == OtherNode([t]) && t.IsTypeDecl() && TypeCountAll(t.children) == 0
    ensures Trim(Walked(root, State("", "")).result) == Block(t)
  {
    assert TopLevelTypesAll([t]) == TopLevelTypesAll([]) + TopLevelTypes(t);
    assert TopLevelTypes(root) == [t];
    assert [t][..0] == [];
    assert AllFlat([t]);
    FlatFileOutput(root);
    assert Blocks([t]) == [Block(t)];
  }

  /**
   * A file holding one type whose body is a block of members prints as four
   * lines: the header, the two kept member lines, the closing brace.
   */
  lemma OneTypeFile(file: Node, t: Node, members: seq<Node>, lines: seq<string>)
    requires file == OtherNode([t]) && t.IsTypeDecl() && t.children == [OtherNode(members)]
    requires forall i :: 0 <= i < |members| ==> members[i].IsMemberDecl()
    requires |lines| == 4 && Header(t) == lines[0] && lines[3] == "}"
    requires LinesAll(members, t.ProtocolDecl?) == Indented([lines[1], lines[2]])
    ensures Trim(Walked(file, State("", "")).result) == JoinWith(lines, '\n')
  {
    MemberBlock(t, members, lines[0], [lines[1], lines[2]]);
    assert [lines[0]] + [lines[1], lines[2]] + ["}"] == lines;
    SingleTypeFile(file, t);
  }

  /** The declaration part of a member's line: `func` with name and trimmed signature, or `var` with the bindings. */
  function Declaration(n: Node): string
    requires n.IsMemberDecl()
  {
    if n.FunctionDecl? then "func " + n.name + Trim(n.signature) else "var " + n.bindings
  }

  /** A kept member whose modifiers trim to `word`: a newline, the indentation, the word and a space, the declaration. */
  lemma KeptLine(n: Node, word: string, p: bool)
    requires n.IsMemberDecl() && Trim(n.modifiers.text) == word && word != ""
    requires p || "public" in n.modifiers.names || "open" in n.modifiers.names
    ensures Lines(n, p) == "\n" + ("    " + word + " " + Declaration(n))
  {
    var d := Declaration(n);
    assert Rendered(n) == MemberLine(n.modifiers, d);
    assert "\n    " == "\n" + "    ";
    AppendAssoc("\n", "    ", word + " ");
    AppendAssoc("\n", "    " + (word + " "), d);
    AppendAssoc("    ", word, " ");
  }

  /** A kept member without modifiers: a newline, the indentation, the declaration. */
  lemma KeptBareLine(n: Node, p: bool)
    requires n.IsMemberDecl() && Trim(n.modifiers.text) == "" && p
    ensures Lines(n, p) == "\n" + ("    " + Declaration(n))
  {
    var d := Declaration(n);
    assert Rendered(n) == MemberLine(n.modifiers, d);
    assert "\n    " + "" == "\n" + "    ";
    AppendAssoc("\n", "    ", d);
  }

  /** A member that is neither `public` nor `open`, outside a protocol, has no line. */
  lemma DroppedLine(n: Node)
    requires n.IsMemberDecl() && "public" !in n.modifiers.names && "open" !in n.modifiers.names
    ensures Lines(n, false) == ""
  {
  }

  /** The member lines of two and of four members, the way a walk meets them. */
  lemma LinesOfTwo(a: Node, b: Node, p: bool)
    ensures LinesAll([a, b], p) == Lines(a, p) + Lines(b, p)
  {
    assert [a, b][..1] == [a];
    assert [a][..0] == [];
    assert LinesAll([a], p) == "" + Lines(a, p) == Lines(a, p);
  }

  lemma LinesOfFour(a: Node, b: Node, c: Node, d: Node, p: bool)
    ensures LinesAll([a, b, c, d], p) == LinesAll([a, b], p) + Lines(c, p) + Lines(d, p)
  {
    assert [a, b, c, d][..3] == [a, b, c];
    assert [a, b, c][..2] == [a, b];
    assert LinesAll([a, b, c], p) == LinesAll([a, b], p) + Lines(c, p);
  }

  lemma IndentedTwo(l1: string, l2: string)
    ensures Indented([l1, l2]) == "\n" + l1 + ("\n" + l2)
  {
    assert [l1, l2][..1] == [l1];
    assert [l1][..0] == [];
    assert Indented([l1]) == "" + ("\n" + l1) == "\n" + l1;
  }

  /** Member declarations hold no type declarations the walk would visit. */
  lemma {:induction false} NoTypesInMembers(ms: seq<Node>)
    requires forall i :: 0 <= i < |ms| ==> ms[i].IsMemberDecl()
    ensures TypeCountAll(ms) == 0
    decreases ms
  {
    if ms != [] {
      NoTypesInMembers(ms[..|ms| - 1]);
    }
  }

  /** A type whose body is one member block: its block is its header, the lines of its kept members, `}`. */
  lemma MemberBlock(t: Node, members: seq<Node>, header: string, ls: seq<string>)
    requires t.IsTypeDecl() && Header(t) == header && t.children == [OtherNode(members)]
    requires forall i :: 0 <= i < |members| ==> members[i].IsMemberDecl()
    requires LinesAll(members, t.ProtocolDecl?) == Indented(ls)
    ensures TypeCountAll(t.children) == 0
    ensures Block(t) == JoinWith([header] + ls + ["}"], '\n')
  {
    NoTypesInMembers(members);
    assert [OtherNode(members)][..0] == [];
    assert TypeCountAll(t.children) == TypeCountAll([]) + TypeCount(OtherNode(members));
    assert LinesAll(t.children, t.ProtocolDecl?) == "" + Lines(OtherNode(members), t.ProtocolDecl?);
    BlockLines(t, header, ls);
  }

  lemma ThreeTopLevelTypes(root: Node, a: Node, b: Node, c: Node)
    requires root == OtherNode([a, b, c]) && a.IsTypeDecl() && b.IsTypeDecl() && c.IsTypeDecl()
    ensures TopLevelTypes(root) == [a, b, c]
  {
    assert [a, b, c][..2] == [a, b] && [a, b][..1] == [a] && [a][..0] == [];
    assert TopLevelTypesAll([a]) == [] + [a];
    assert TopLevelTypesAll([a, b]) == [a] + [b];
    assert TopLevelTypesAll([a, b, c]) == [a, b] + [c];
  }

  lemma ThreeBlocks(a: Node, b: Node, c: Node)
    requires IsFlatType(a) && IsFlatType(b) && IsFlatType(c)
    ensures AllFlat([a, b, c])
    ensures JoinWith(Blocks([a, b, c]), '\n') == Block(a) + "\n" + (Block(b) + "\n" + Block(c))
  {
    assert [a, b, c][..2] == [a, b] && [a, b][..1] == [a] && [a][..0] == [];
    assert AllFlat([a]);
    assert AllFlat([a, b]);
    assert AllFlat([a, b, c]);
    assert Blocks([a]) == [Block(a)];
    assert Blocks([a, b]) == [Block(a), Block(b)];
    var bs := [Block(a), Block(b), Block(c)];
    assert Blocks([a, b, c]) == bs;
    assert bs[1..] == [Block(b), Block(c)];
    assert [Block(b), Block(c)][1..] == [Block(c)];
    assert JoinWith([Block(b), Block(c)], '\n') == Block(b) + "\n" + Block(c);
  }

  /** A file of three top-level types prints as their three blocks, in order, one newline apart. */
  lemma ThreeTypeFile(root: Node, a: Node, b: Node, c: Node)
    requires root == OtherNode([a, b, c])
    requires IsFlatType(a) && IsFlatType(b) && IsFlatType(c)
    ensures Trim(Walked(root, State("", "")).result) == Block(a) + "\n" + (Block(b) + "\n" + Block(c))
  {
    ThreeTopLevelTypes(root, a, b, c);
    ThreeBlocks(a, b, c);
    FlatFileOutput(root);
  }

  /** Three joined blocks are the join of all their lines. */
  lemma ThreeBlocksJoined(la: seq<string>, lb: seq<string>, lc: seq<string>)
    requires la != [] && lb != [] && lc != []
    ensures JoinWith(la + lb + lc, '\n')
            == JoinWith(la, '\n') + "\n" + (JoinWith(lb, '\n') + "\n" + JoinWith(lc, '\n'))
  {
    assert la + lb + lc == la + (lb + lc);
    JoinWithConcat(la, lb + lc, '\n');
    JoinWithConcat(lb, lc, '\n');
  }

  /** A file of three flat types prints as the lines of their three blocks, in order. */
  lemma ThreeTypeFileLines(file: Node, a: Node, b: Node, c: Node,
                           la: seq<string>, lb: seq<string>, lc: seq<string>, all: seq<string>)
    requires file == OtherNode([a, b, c])
    requires IsFlatType(a) && IsFlatType(b) && IsFlatType(c)
    requires Block(a) == JoinWith(la, '\n') && Block(b) == JoinWith(lb, '\n') && Block(c) == JoinWith(lc, '\n')
    requires la != [] && lb != [] && lc != [] && all == la + lb + lc
    ensures Trim(Walked(file, State("", "")).result) == JoinWith(all, '\n')
  {
    ThreeTypeFile(file, a, b, c);
    ThreeBlocksJoined(la, lb, lc);
  }

  lemma PublicModifierTrimmed()
    ensures Trim(Modifier("public", Indent).text) == "public"
  {
    IndentIsWhitespace();
    TrimAround(Indent, "public", " ");
  }

  /** A signature as printed before a body: trimming drops the space before `{`. */
  lemma SignatureTrimmed()
    ensures Trim("() -> Int ") == "() -> Int"
  {
    TrimAround("", "() -> Int", " ");
    assert "" + "() -> Int" + " " == "() -> Int ";
  }

  /** A signature with no body after it is already trimmed. */
  lemma BareSignatureTrimmed()
    ensures Trim("() -> Int") == "() -> Int"
  {
    TrimOfTrimmed("() -> Int");
  }

  /** A public variable's line, from its parts. */
  lemma PublicVariableLine(n: Node, p: bool)
    requires n.VariableDecl? && n.modifiers == Modifier("public", Indent)
    ensures Lines(n, p) == "\n" + ("    " + "public" + " " + ("var " + n.bindings))
  {
    PublicModifierTrimmed();
    KeptLine(n, "public", p);
  }

  /** A public function's line, from its parts, for a signature printed before a body. */
  lemma PublicFunctionLine(n: Node, p: bool)
    requires n.FunctionDecl? && n.modifiers == Modifier("public", Indent) && n.signature == "() -> Int "
    ensures Lines(n, p) == "\n" + ("    " + "public" + " " + ("func " + n.name + "() -> Int"))
  {
    PublicModifierTrimmed();
    SignatureTrimmed();
    KeptLine(n, "public", p);
  }

  /** A protocol variable's line: no modifiers. */
  lemma ProtocolVariableLine(n: Node)
    requires n.VariableDecl? && n.modifiers == NoModifiers
    ensures Lines(n, true) == "\n" + ("    " + ("var " + n.bindings))
  {
    KeptBareLine(n, true);
  }

  /** A protocol function's line: no modifiers, a signature with no body after it. */
  lemma ProtocolFunctionLine(n: Node)
    requires n.FunctionDecl? && n.modifiers == NoModifiers && n.signature == "() -> Int"
    ensures Lines(n, true) == "\n" + ("    " + ("func " + n.name + "() -> Int"))
  {
    BareSignatureTrimmed();
    KeptBareLine(n, true);
  }

  lemma PrivateDropped(n: Node)
    requires n.IsMemberDecl() && n.modifiers == Modifier("private", Indent)
    ensures Lines(n, false) == ""
  {
    assert "public" != "private" && "open" != "private";
    DroppedLine(n);
  }

  /** Two members' lines, each a newline and a line, make the indented pair. */
  lemma TwoKept(a: Node, b: Node, p: bool, l1: string, l2: string)
    requires Lines(a, p) == "\n" + l1 && Lines(b, p) == "\n" + l2
    ensures LinesAll([a, b], p) == Indented([l1, l2])
  {
    LinesOfTwo(a, b, p);
    IndentedTwo(l1, l2);
  }

  // ----- testClassPublicInterfaceExtraction -----

  const PublicVar := VariableDecl(Modifier("public", Indent), "publicVar: Int", [])
  const PrivateVar := VariableDecl(Modifier("private", Indent), "privateVar: Int", [])
  const PublicFunc := FunctionDecl("publicFunc", Modifier("public", Indent), "() -> Int ", [OtherNode([])])
  const PrivateFunc := FunctionDecl("privateFunc", Modifier("private", Indent), "() ", [OtherNode([])])

  const TestClass := ClassDecl("TestClass", Modifier("public", ""), [OtherNode([PublicVar, PrivateVar, PublicFunc, PrivateFunc])])
  const ClassFile := OtherNode([TestClass])

  const ClassInterface := ["class TestClass {", "    public var publicVar: Int", "    public func publicFunc() -> Int", "}"]

  lemma PublicVarText()
    ensures "    " + "public" + " " + ("var " + "publicVar: Int") == "    public var publicVar: Int"
  {
  }

  lemma PublicFuncText()
    ensures "    " + "public" + " " + ("func " + "publicFunc" + "() -> Int") == "    public func publicFunc() -> Int"
  {
  }

  lemma PublicVarLine(p: bool)
    ensures Lines(PublicVar, p) == "\n" + "    public var publicVar: Int"
  {
    PublicVariableLine(PublicVar, p);
    PublicVarText();
  }

  lemma PublicFuncLine(p: bool)
    ensures Lines(PublicFunc, p) == "\n" + "    public func publicFunc() -> Int"
  {
    PublicFunctionLine(PublicFunc, p);
    PublicFuncText();
  }

  lemma ClassMemberLines(x: string, y: string)
    requires x == "\n" + "    public var publicVar: Int" && y == "\n" + "    public func publicFunc() -> Int"
    ensures x + "" + y + "" == Indented([ClassInterface[1], ClassInterface[2]])
  {
    IndentedTwo(ClassInterface[1], ClassInterface[2]);
  }

  /** The lines of the class's four members: the two public ones, in order. */
  lemma ClassLines()
    ensures LinesAll([PublicVar, PrivateVar, PublicFunc, PrivateFunc], false) == Indented([ClassInterface[1], ClassInterface[2]])
  {
    PublicVarLine(false);
    PublicFuncLine(false);
    PrivateDropped(PrivateVar);
    PrivateDropped(PrivateFunc);
    LinesOfTwo(PublicVar, PrivateVar, false);
    LinesOfFour(PublicVar, PrivateVar, PublicFunc, PrivateFunc, false);
    ClassMemberLines(Lines(PublicVar, false), Lines(PublicFunc, false));
  }

  lemma ClassHeader()
    ensures Header(TestClass) == "class TestClass {"
  {
  }

  /** testClassPublicInterfaceExtraction: the class prints with its public members only, modifiers and signatures trimmed. */
  lemma ClassScenario()
    ensures Trim(Walked(ClassFile, State("", "")).result) == JoinWith(ClassInterface, '\n')
  {
    ClassLines();
    ClassHeader();
    OneTypeFile(ClassFile, TestClass, [PublicVar, PrivateVar, PublicFunc, PrivateFunc], ClassInterface);
  }

  // ----- testStructPublicInterfaceExtraction -----

  const TestStruct := StructDecl("TestStruct", NoModifiers, [OtherNode([PrivateVar, PublicVar, PrivateFunc, PublicFunc])])
  const StructFile := OtherNode([TestStruct])

  const StructInterface := ["struct TestStruct {", "    public var publicVar: Int", "    public func publicFunc() -> Int", "}"]

  lemma StructMemberLines(x: string, y: string)
    requires x == "\n" + "    public var publicVar: Int" && y == "\n" + "    public func publicFunc() -> Int"
    ensures "" + x + "" + y == Indented([StructInterface[1], StructInterface[2]])
  {
    IndentedTwo(StructInterface[1], StructInterface[2]);
  }

  /** The lines of the struct's four members: the two public ones, in order. */
  lemma StructLines()
    ensures LinesAll([PrivateVar, PublicVar, PrivateFunc, PublicFunc], false) == Indented([StructInterface[1], StructInterface[2]])
  {
    PublicVarLine(false);
    PublicFuncLine(false);
    PrivateDropped(PrivateVar);
    PrivateDropped(PrivateFunc);
    LinesOfTwo(PrivateVar, PublicVar, false);
    LinesOfFour(PrivateVar, PublicVar, PrivateFunc, PublicFunc, false);
    StructMemberLines(Lines(PublicVar, false), Lines(PublicFunc, false));
  }

  lemma StructHeader()
    ensures Header(TestStruct) == "struct TestStruct {"
  {
  }

  /** testStructPublicInterfaceExtraction: private members before public ones make no difference. */
  lemma StructScenario()
    ensures Trim(Walked(StructFile, State("", "")).result) == JoinWith(StructInterface, '\n')
  {
    StructLines();
    StructHeader();
    OneTypeFile(StructFile, TestStruct, [PrivateVar, PublicVar, PrivateFunc, PublicFunc], StructInterface);
  }

  // ----- testProtocolPublicInterfaceExtraction -----

  const RequiredVar := VariableDecl(NoModifiers, "publicVar: Int { get }", [])
  const RequiredFunc := FunctionDecl("publicFunc", NoModifiers, "() -> Int", [])

  const TestProtocol := ProtocolDecl("TestProtocol", NoModifiers, [OtherNode([RequiredVar, RequiredFunc])])
  const ProtocolFile := OtherNode([TestProtocol])

  const ProtocolInterface := ["protocol TestProtocol {", "    var publicVar: Int { get }", "    func publicFunc() -> Int", "}"]

  lemma RequiredVarText()
    ensures "    " + ("var " + "publicVar: Int { get }") == "    var publicVar: Int { get }"
  {
  }

  lemma RequiredVarLine()
    ensures Lines(RequiredVar, true) == "\n" + "    var publicVar: Int { get }"
  {
    ProtocolVariableLine(RequiredVar);
    RequiredVarText();
  }

  lemma RequiredFuncText()
    ensures "    " + ("func " + "publicFunc" + "() -> Int") == "    func publicFunc() -> Int"
  {
  }

  lemma RequiredFuncLine()
    ensures Lines(RequiredFunc, true) == "\n" + "    func publicFunc() -> Int"
  {
    ProtocolFunctionLine(RequiredFunc);
    RequiredFuncText();
  }

  lemma ProtocolHeader()
    ensures Header(TestProtocol) == "protocol TestProtocol {"
  {
  }

  /** testProtocolPublicInterfaceExtraction: inside a protocol every member is kept, without modifiers. */
  lemma ProtocolScenario()
    ensures Trim(Walked(ProtocolFile, State("", "")).result) == JoinWith(ProtocolInterface, '\n')
  {
    RequiredVarLine();
    RequiredFuncLine();
    TwoKept(RequiredVar, RequiredFunc, true, ProtocolInterface[1], ProtocolInterface[2]);
    ProtocolHeader();
    OneTypeFile(ProtocolFile, TestProtocol, [RequiredVar, RequiredFunc], ProtocolInterface);
  }

  // ----- testMultiplePublicInterfaceExtraction -----

  const ClassVar := VariableDecl(Modifier("public", Indent), "classVar: Int", [])
  const ClassFunc := FunctionDecl("classFunc", Modifier("public", Indent), "() -> Int ", [OtherNode([])])
  const StructVar := VariableDecl(Modifier("public", Indent), "structVar: Int", [])
  const StructFunc := FunctionDecl("structFunc", Modifier("public", Indent), "() -> Int ", [OtherNode([])])
  const ProtocolVar := VariableDecl(NoModifiers, "protocolVar: Int { get }", [])
  const ProtocolFunc := FunctionDecl("protocolFunc", NoModifiers, "() -> Int", [])

  const FirstClass := ClassDecl("TestClass", NoModifiers, [OtherNode([ClassVar, ClassFunc])])
  const SecondStruct := StructDecl("TestStruct", NoModifiers, [OtherNode([StructVar, StructFunc])])
  const ThirdProtocol := ProtocolDecl("TestProtocol", NoModifiers, [OtherNode([ProtocolVar, ProtocolFunc])])
  const MultipleFile := OtherNode([FirstClass, SecondStruct, ThirdProtocol])

  const MultipleClassLines := ["class TestClass {", "    public var classVar: Int", "    public func classFunc() -> Int", "}"]
  const MultipleStructLines := ["struct TestStruct {", "    public var structVar: Int", "    public func structFunc() -> Int", "}"]
  const MultipleProtocolLines := ["protocol TestProtocol {", "    var protocolVar: Int { get }", "    func protocolFunc() -> Int", "}"]

  const MultipleInterface := [
    "class TestClass {",
    "    public var classVar: Int",
    "    public func classFunc() -> Int",
    "}",
    "struct TestStruct {",
    "    public var structVar: Int",
    "    public func structFunc() -> Int",
    "}",
    "protocol TestProtocol {",
    "    var protocolVar: Int { get }",
    "    func protocolFunc() -> Int",
    "}"
  ]

  lemma ClassVarText()
    ensures "    " + "public" + " " + ("var " + "classVar: Int") == "    public var classVar: Int"
  {
  }

  lemma ClassVarLine()
    ensures Lines(ClassVar, false) == "\n" + "    public var classVar: Int"
  {
    PublicVariableLine(ClassVar, false);
    ClassVarText();
  }

  lemma ClassFuncText()
    ensures "    " + "public" + " " + ("func " + "classFunc" + "() -> Int") == "    public func classFunc() -> Int"
  {
  }

  lemma ClassFuncLine()
    ensures Lines(ClassFunc, false) == "\n" + "    public func classFunc() -> Int"
  {
    PublicFunctionLine(ClassFunc, false);
    ClassFuncText();
  }

  lemma StructVarText()
    ensures "    " + "public" + " " + ("var " + "structVar: Int") == "    public var structVar: Int"
  {
  }

  lemma StructVarLine()
    ensures Lines(StructVar, false) == "\n" + "    public var structVar: Int"
  {
    PublicVariableLine(StructVar, false);
    StructVarText();
  }

  lemma StructFuncText()
    ensures "    " + "public" + " " + ("func " + "structFunc" + "() -> Int") == "    public func structFunc() -> Int"
  {
  }

  lemma StructFuncLine()
    ensures Lines(StructFunc, false) == "\n" + "    public func structFunc() -> Int"
  {
    PublicFunctionLine(StructFunc, false);
    StructFuncText();
  }

  lemma ProtocolVarDeclaration()
    ensures "var " + "protocolVar: Int { get }" == "var protocolVar: Int { get }"
  {
  }

  lemma ProtocolVarIndented()
    ensures "    " + "var protocolVar: Int { get }" == "    var protocolVar: Int { get }"
  {
  }

  lemma ProtocolVarText()
    ensures "    " + ("var " + "protocolVar: Int { get }") == "    var protocolVar: Int { get }"
  {
    ProtocolVarDeclaration();
    ProtocolVarIndented();
  }

  lemma ProtocolVarLine()
    ensures Lines(ProtocolVar, true) == "\n" + "    var protocolVar: Int { get }"
  {
    ProtocolVariableLine(ProtocolVar);
    ProtocolVarText();
  }

  lemma ProtocolFuncText()
    ensures "    " + ("func " + "protocolFunc" + "() -> Int") == "    func protocolFunc() -> Int"
  {
  }

  lemma ProtocolFuncLine()
    ensures Lines(ProtocolFunc, true) == "\n" + "    func protocolFunc() -> Int"
  {
    ProtocolFunctionLine(ProtocolFunc);
    ProtocolFuncText();
  }

  lemma FirstClassHeader()
    ensures Header(FirstClass) == "class TestClass {"
  {
  }

  lemma SecondStructHeader()
    ensures Header(SecondStruct) == "struct TestStruct {"
  {
  }

  lemma ThirdProtocolHeader()
    ensures Header(ThirdProtocol) == "protocol TestProtocol {"
  {
  }

  lemma FirstClassBlock()
    ensures IsFlatType(FirstClass) && Block(FirstClass) == JoinWith(MultipleClassLines, '\n')
  {
    var ls := MultipleClassLines;
    ClassVarLine();
    ClassFuncLine();
    TwoKept(ClassVar, ClassFunc, false, ls[1], ls[2]);
    FirstClassHeader();
    MemberBlock(FirstClass, [ClassVar, ClassFunc], ls[0], [ls[1], ls[2]]);
    assert [ls[0]] + [ls[1], ls[2]] + ["}"] == ls;
  }

  lemma SecondStructBlock()
    ensures IsFlatType(SecondStruct) && Block(SecondStruct) == JoinWith(MultipleStructLines, '\n')
  {
    var ls := MultipleStructLines;
    StructVarLine();
    StructFuncLine();
    TwoKept(StructVar, StructFunc, false, ls[1], ls[2]);
    SecondStructHeader();
    MemberBlock(SecondStruct, [StructVar, StructFunc], ls[0], [ls[1], ls[2]]);
    assert [ls[0]] + [ls[1], ls[2]] + ["}"] == ls;
  }

  lemma ThirdProtocolBlock()
    ensures IsFlatType(ThirdProtocol) && Block(ThirdProtocol) == JoinWith(MultipleProtocolLines, '\n')
  {
    var ls := MultipleProtocolLines;
    ProtocolVarLine();
    ProtocolFuncLine();
    TwoKept(ProtocolVar, ProtocolFunc, true, ls[1], ls[2]);
    ThirdProtocolHeader();
    MemberBlock(ThirdProtocol, [ProtocolVar, ProtocolFunc], ls[0], [ls[1], ls[2]]);
    assert [ls[0]] + [ls[1], ls[2]] + ["}"] == ls;
  }

  /** The expected interface is the three blocks' lines one after the other. */
  lemma MultipleLinesInOrder()
    ensures MultipleClassLines + MultipleStructLines + MultipleProtocolLines == MultipleInterface
  {
  }

  /**
   * testMultiplePublicInterfaceExtraction: three types print in source order,
   * one newline apart; the blank lines between them in the source are not kept.
   */
  lemma MultipleScenario()
    ensures Trim(Walked(MultipleFile, State("", "")).result) == JoinWith(MultipleInterface, '\n')
  {
    FirstClassBlock();
    SecondStructBlock();
    ThirdProtocolBlock();
    MultipleLinesInOrder();
    ThreeTypeFileLines(MultipleFile, FirstClass, SecondStruct, ThirdProtocol,
                       MultipleClassLines, MultipleStructLines, MultipleProtocolLines, MultipleInterface);
  }
}
