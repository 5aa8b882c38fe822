/**
 * The part of a parsed Swift source file that the interface extractor looks at.
 * The parser is a foreign library; its trees are taken as given, and only the
 * queries the extractor makes of a node are kept: the declaration kind, the
 * identifier, the modifier list, the signature or binding text and the children.
 */
module SyntaxTree {

  /**
   * A declaration's modifier list: the name of each modifier token, and the
   * text of the whole list as the parser prints it (surrounding trivia
   * included). A declaration with no modifier list has `NoModifiers`.
   */
  datatype Modifiers = Modifiers(names: seq<string>, text: string)

  const NoModifiers := Modifiers([], "")

  /**
   * A syntax node. `signature` is the printed function signature (parameters
   * and return clause); `bindings` is the printed binding list of a variable
   * declaration (`name: Type`, accessors included). Every other kind of node
   * (the source file itself, member blocks, imports, extensions, statements)
   * is an `OtherNode`.
   */
  datatype Node =
    | ClassDecl(name: string, modifiers: Modifiers, children: seq<Node>)
    | StructDecl(name: string, modifiers: Modifiers, children: seq<Node>)
    | ProtocolDecl(name: string, modifiers: Modifiers, children: seq<Node>)
    | FunctionDecl(name: string, modifiers: Modifiers, signature: string, children: seq<Node>)
    | VariableDecl(modifiers: Modifiers, bindings: string, children: seq<Node>)
    | OtherNode(children: seq<Node>)
  {
    /** A class, struct or protocol declaration. */
    predicate IsTypeDecl() {
      ClassDecl? || StructDecl? || ProtocolDecl?
    }

    /** A function or variable declaration. */
    predicate IsMemberDecl() {
      FunctionDecl? || VariableDecl?
    }
  }

  /** The error the parser throws for text it cannot parse. */
  datatype ParseError = ParseError(message: string)
}
