/**
 * The public-interface extractor: a depth-first visitor over a Swift syntax
 * tree that keeps two strings, the buffer of the type currently open and the
 * accumulated result.
 *
 * The pure functions `Entered`, `Leave` and `Walked` say what one visitor step and
 * one whole walk do to those two strings; the class `SwiftInterfaceExtractor`
 * holds them as fields and its methods are proved to follow those functions.
 */
module InterfaceExtraction {
  import opened Strings
  import opened SyntaxTree
  import opened Wrappers

  /** What a `visit` callback tells the walker: descend into the children or not. */
  datatype ContinueKind = VisitChildren | SkipChildren

  /** The extractor's two fields. */
  datatype State = State(currentInterface: string, result: string)

  /** The keyword a type declaration is rendered with. */
  function Keyword(n: Node): string
    requires n.IsTypeDecl()
  {
    match n
    case ClassDecl(_, _, _) => "class"
    case StructDecl(_, _, _) => "struct"
    case ProtocolDecl(_, _, _) => "protocol"
  }

  /** The first line of a type's block, `<kind> <Name> {`. */
  function Header(n: Node): string
    requires n.IsTypeDecl()
  {
    Keyword(n) + " " + n.name + " {"
  }

  /** A member is kept when the buffer belongs to a protocol or the member is `public` or `open`. */
  predicate ShouldInclude(currentInterface: string, modifiers: Modifiers) {
    StartsWith(currentInterface, "protocol") || "public" in modifiers.names || "open" in modifiers.names
  }

  /** One member line: newline, four spaces, the trimmed modifier text and a space (if any), then the declaration. */
  function MemberLine(modifiers: Modifiers, declaration: string): string {
    var modifierText := Trim(modifiers.text);
    "\n    " + (if modifierText == "" then "" else modifierText + " ") + declaration
  }

  /** The line a kept member adds to the buffer. */
  function Rendered(n: Node): string
    requires n.IsMemberDecl()
  {
    match n
    case FunctionDecl(name, modifiers, signature, _) => MemberLine(modifiers, "func " + name + Trim(signature))
    case VariableDecl(modifiers, bindings, _) => MemberLine(modifiers, "var " + bindings)
  }

  /** What the `visit` callbacks answer: functions and variables are not descended into. */
  function Continuation(n: Node): ContinueKind {
    if n.IsMemberDecl() then SkipChildren else VisitChildren
  }

  /** What the `visit` callbacks do to the state on entering a node. */
  function Entered(n: Node, s: State): State {
    if n.IsTypeDecl() then
      s.(currentInterface := Header(n))
    else if n.IsMemberDecl() && ShouldInclude(s.currentInterface, n.modifiers) then
      s.(currentInterface := s.currentInterface + Rendered(n))
    else
      s
  }

  /** The `visitPost` callbacks: leaving a type closes its buffer and moves it to the result. */
  function Leave(n: Node, s: State): State {
    if n.IsTypeDecl() then
      var closed := s.currentInterface + "\n}";
      State("", s.result + closed + "\n")
    else
      s
  }

  /** The state after walking the tree rooted at `n`: enter, walk the children if asked to, leave. */
  function Walked(n: Node, s: State): State
    decreases n
  {
    var entered := Entered(n, s);
    Leave(n, if Continuation(n) == VisitChildren then WalkedAll(n.children, entered) else entered)
  }

  /** The state after walking the trees `ns` one after the other, in order. */
  function WalkedAll(ns: seq<Node>, s: State): State
    decreases ns
  {
    if ns == [] then s else Walked(ns[|ns| - 1], WalkedAll(ns[..|ns| - 1], s))
  }

  class SwiftInterfaceExtractor {
    var result: string
    var currentInterface: string

    constructor ()
      ensures result == "" && currentInterface == ""
    {
      result := "";
      currentInterface := "";
    }

    /** The two fields as a value. */
    function Snapshot(): State
      reads this
    {
      State(currentInterface, result)
    }

    /** The `visit` overrides for class, struct, protocol, function and variable declarations (and the default). */
    method Visit(node: Node) returns (kind: ContinueKind)
      modifies this
      ensures kind == Continuation(node) && Snapshot() == Entered(node, old(Snapshot()))
    {
      match node
      case ClassDecl(name, _, _) =>
        currentInterface := "class " + name + " {";
        assert currentInterface == Header(node);
        kind := VisitChildren;
      case StructDecl(name, _, _) =>
        currentInterface := "struct " + name + " {";
        assert currentInterface == Header(node);
        kind := VisitChildren;
      case ProtocolDecl(name, _, _) =>
        currentInterface := "protocol " + name + " {";
        assert currentInterface == Header(node);
        kind := VisitChildren;
      case FunctionDecl(name, modifiers, signature, _) =>
        if ShouldInclude(currentInterface, modifiers) {
          currentInterface := currentInterface + MemberLine(modifiers, "func " + name + Trim(signature));
        }
        kind := SkipChildren;
      case VariableDecl(modifiers, bindings, _) =>
        if ShouldInclude(currentInterface, modifiers) {
          currentInterface := currentInterface + MemberLine(modifiers, "var " + bindings);
        }
        kind := SkipChildren;
      case OtherNode(_) =>
        kind := VisitChildren;
    }

    /** The `visitPost` overrides for class, struct and protocol declarations (and the default). */
    method VisitPost(node: Node)
      modifies this
      ensures Snapshot() == Leave(node, old(Snapshot()))
    {
      if node.IsTypeDecl() {
        currentInterface := currentInterface + "\n}";
        result := result + currentInterface + "\n";
        currentInterface := "";
      }
    }

    /** The syntax visitor's `walk`: pre-order `Visit`, the children in order, post-order `VisitPost`. */
    method Walk(node: Node)
      modifies this
      ensures Snapshot() == Walked(node, old(Snapshot()))
      decreases node, 1
    {
      var kind := Visit(node);
      if kind == VisitChildren {
        WalkAll(node.children);
      }
      VisitPost(node);
    }

    /** Walks the trees `nodes` one after the other. */
    method WalkAll(nodes: seq<Node>)
      modifies this
      ensures Snapshot() == WalkedAll(nodes, old(Snapshot()))
      decreases nodes, 0
    {
      if nodes != [] {
        WalkAll(nodes[..|nodes| - 1]);
        Walk(nodes[|nodes| - 1]);
      }
    }

    /**
     * `extractPublicInterface(from:)`, given what the parser made of the source:
     * a parse error is passed on and nothing is walked; otherwise the tree is
     * walked and the trimmed result returned. The result is never reset, so a
     * second call on the same extractor returns the earlier output as well.
     */
    method ExtractPublicInterface(parsed: Result<Node, ParseError>) returns (output: Result<string, ParseError>)
      modifies this
      ensures parsed.Failure? ==> output == Failure(parsed.error) && Snapshot() == old(Snapshot())
      ensures parsed.Success? ==> Snapshot() == Walked(parsed.value, old(Snapshot()))
      ensures parsed.Success? ==> output == Success(Trim(result))
    {
      if parsed.Failure? {
        return Failure(parsed.error);
      }
      Walk(parsed.value);
      output := Success(Trim(result));
    }
  }
}
