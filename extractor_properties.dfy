/**
 * What the extractor's walk does, stated over the pure model of
 * `InterfaceExtraction`: the entry, member and exit rules one step at a time,
 * one flush per type declaration, an append-only result, the exact output for
 * files of top-level types, and the quirks of nested types and repeated calls.
 */
module ExtractorProperties {
  import opened Strings
  import opened SyntaxTree
  import opened InterfaceExtraction

  // ----- One step at a time -----

  /** How a walk unfolds at a function or variable: one `visit`, no children, no `visitPost` effect. */
  lemma WalkedMember(n: Node, s: State)
    requires n.IsMemberDecl()
    ensures Walked(n, s) == Entered(n, s)
  {
  }

  /** How a walk unfolds at any other node: `visit`, the children in order, `visitPost`. */
  lemma WalkedBranch(n: Node, s: State)
    requires !n.IsMemberDecl()
    ensures Walked(n, s) == Leave(n, WalkedAll(n.children, Entered(n, s)))
  {
  }

  lemma WalkedAllLast(ns: seq<Node>, s: State)
    requires ns != []
    ensures WalkedAll(ns, s) == Walked(ns[|ns| - 1], WalkedAll(ns[..|ns| - 1], s))
  {
  }

  /**
   * Entering a type goes on to its children and starts a fresh buffer: what
   * the buffer held before makes no difference to the walk of the type, and
   * the new buffer counts as a protocol's exactly when the type is a protocol.
   */
  lemma TypeEntryDiscardsBuffer(n: Node, s: State, earlier: string)
    requires n.IsTypeDecl()
    ensures Continuation(n) == VisitChildren
    ensures Walked(n, s) == Walked(n, s.(currentInterface := earlier))
    ensures StartsWith(Entered(n, s).currentInterface, "protocol") <==> n.ProtocolDecl?
  {
    var h := Entered(n, s).currentInterface;
    assert Entered(n, s.(currentInterface := earlier)) == Entered(n, s);
    if !n.ProtocolDecl? {
      assert h[0] == 'c' || h[0] == 's';
    }
  }

  lemma RenderedStartsWithNewline(n: Node)
    requires n.IsMemberDecl()
    ensures |Rendered(n)| > 0 && Rendered(n)[0] == '\n'
  {
  }

  /**
   * A function or variable adds its line exactly when the buffer starts with
   * `protocol` or it carries `public` or `open`; otherwise it changes nothing.
   * It never touches the result.
   */
  lemma MemberEmittedIff(n: Node, s: State)
    requires n.IsMemberDecl()
    ensures Walked(n, s).result == s.result
    ensures Walked(n, s) == s || Walked(n, s).currentInterface == s.currentInterface + Rendered(n)
    ensures Walked(n, s).currentInterface == s.currentInterface + Rendered(n)
            <==> (StartsWith(s.currentInterface, "protocol") || "public" in n.modifiers.names || "open" in n.modifiers.names)
  {
    RenderedStartsWithNewline(n);
    WalkedMember(n, s);
    assert |s.currentInterface + Rendered(n)| != |s.currentInterface|;
  }

  /** A member that is neither `public` nor `open`, outside a protocol, leaves no trace. */
  lemma HiddenMemberOmitted(n: Node, s: State)
    requires n.IsMemberDecl()
    requires "public" !in n.modifiers.names && "open" !in n.modifiers.names
    requires !StartsWith(s.currentInterface, "protocol")
    ensures Walked(n, s) == s
  {
    WalkedMember(n, s);
  }

  /** Inside a protocol's buffer every member is emitted, whatever its modifiers. */
  lemma ProtocolMemberEmitted(n: Node, s: State)
    requires n.IsMemberDecl()
    requires StartsWith(s.currentInterface, "protocol")
    ensures Walked(n, s) == s.(currentInterface := s.currentInterface + Rendered(n))
  {
    WalkedMember(n, s);
  }

  /** Functions and variables are never descended into: their children make no difference. */
  lemma MemberChildrenSkipped(name: string, modifiers: Modifiers, text: string, c1: seq<Node>, c2: seq<Node>, s: State)
    ensures Walked(FunctionDecl(name, modifiers, text, c1), s) == Walked(FunctionDecl(name, modifiers, text, c2), s)
    ensures Walked(VariableDecl(modifiers, text, c1), s) == Walked(VariableDecl(modifiers, text, c2), s)
  {
    WalkedMember(FunctionDecl(name, modifiers, text, c1), s);
    WalkedMember(FunctionDecl(name, modifiers, text, c2), s);
    WalkedMember(VariableDecl(modifiers, text, c1), s);
    WalkedMember(VariableDecl(modifiers, text, c2), s);
  }

  /** Leaving a type appends the buffer, `\n}` and a newline to the result and empties the buffer. */
  lemma TypeExitFlushes(n: Node, s: State)
    requires n.IsTypeDecl()
    ensures Leave(n, s) == State("", s.result + s.currentInterface + "\n}\n")
  {
    assert s.result + (s.currentInterface + "\n}") + "\n" == s.result + s.currentInterface + "\n}\n";
  }

  // ----- One flush per type -----

  /** The type declarations a walk of `n` visits (members are not descended into). */
  function TypeCount(n: Node): nat
    decreases n
  {
    if n.IsMemberDecl() then 0
    else (if n.IsTypeDecl() then 1 else 0) + TypeCountAll(n.children)
  }

  function TypeCountAll(ns: seq<Node>): nat
    decreases ns
  {
    if ns == [] then 0 else TypeCountAll(ns[..|ns| - 1]) + TypeCount(ns[|ns| - 1])
  }

  /** The texts a walk of `n` from `s` moves into the result, one per type left, in that order. */
  function Flushes(n: Node, s: State): seq<string>
    decreases n
  {
    if n.IsMemberDecl() then []
    else
      var entered := Entered(n, s);
      var inner := FlushesAll(n.children, entered);
      if n.IsTypeDecl() then inner + [WalkedAll(n.children, entered).currentInterface + "\n}\n"]
      else inner
  }

  function FlushesAll(ns: seq<Node>, s: State): seq<string>
    decreases ns
  {
    if ns == [] then []
    else FlushesAll(ns[..|ns| - 1], s) + Flushes(ns[|ns| - 1], WalkedAll(ns[..|ns| - 1], s))
  }

  /** Entering a node never touches the result. */
  lemma EnteredKeepsResult(n: Node, s: State)
    ensures Entered(n, s).result == s.result
  {
  }

  /** A type's flushes: those of its children, then its own closed buffer. */
  lemma FlushesOfType(n: Node, s: State)
    requires n.IsTypeDecl()
    ensures var entered := Entered(n, s);
            Flushes(n, s) == FlushesAll(n.children, entered) + [WalkedAll(n.children, entered).currentInterface + "\n}\n"]
  {
  }

  /** Leaving a type after its children appends the buffer they leave behind, closed. */
  lemma TypeWalkResult(n: Node, s: State)
    requires n.IsTypeDecl()
    ensures var done := WalkedAll(n.children, Entered(n, s));
            Walked(n, s).result == done.result + (done.currentInterface + "\n}\n")
  {
    WalkedBranch(n, s);
    TypeExitFlushes(n, WalkedAll(n.children, Entered(n, s)));
  }

  /** The inductive step of `ResultGainsFlushes` at a type declaration. */
  lemma TypeGainsFlushes(n: Node, s: State)
    requires n.IsTypeDecl()
    requires var entered := Entered(n, s);
             WalkedAll(n.children, entered).result == entered.result + Concat(FlushesAll(n.children, entered))
    ensures Walked(n, s).result == s.result + Concat(Flushes(n, s))
  {
    var entered := Entered(n, s);
    EnteredKeepsResult(n, s);
    var inner := FlushesAll(n.children, entered);
    var block := WalkedAll(n.children, entered).currentInterface + "\n}\n";
    FlushesOfType(n, s);
    ConcatSnoc(inner, block);
    TypeWalkResult(n, s);
    AppendAssoc(s.result, Concat(inner), block);
  }

  /** Walking `n` appends to the result exactly its flushes, and nothing else. */
  lemma {:induction false} ResultGainsFlushes(n: Node, s: State)
    ensures Walked(n, s).result == s.result + Concat(Flushes(n, s))
    decreases n
  {
    if n.IsMemberDecl() {
      WalkedMember(n, s);
      assert Flushes(n, s) == [];
    } else {
      ResultGainsFlushesAll(n.children, Entered(n, s));
      if n.IsTypeDecl() {
        TypeGainsFlushes(n, s);
      } else {
        WalkedBranch(n, s);
      }
    }
  }

  lemma {:induction false} ResultGainsFlushesAll(ns: seq<Node>, s: State)
    ensures WalkedAll(ns, s).result == s.result + Concat(FlushesAll(ns, s))
    decreases ns
  {
    if ns == [] {
      assert FlushesAll(ns, s) == [];
    } else {
      var front := ns[..|ns| - 1];
      var mid := WalkedAll(front, s);
      WalkedAllLast(ns, s);
      ResultGainsFlushesAll(front, s);
      ResultGainsFlushes(ns[|ns| - 1], mid);
      assert FlushesAll(ns, s) == FlushesAll(front, s) + Flushes(ns[|ns| - 1], mid);
      ConcatAppend(FlushesAll(front, s), Flushes(ns[|ns| - 1], mid));
      AppendAssoc(s.result, Concat(FlushesAll(front, s)), Concat(Flushes(ns[|ns| - 1], mid)));
    }
  }

  /** One flush per type declaration the walk visits. */
  lemma {:induction false} OneFlushPerType(n: Node, s: State)
    ensures |Flushes(n, s)| == TypeCount(n)
    decreases n
  {
    if !n.IsMemberDecl() {
      OneFlushPerTypeAll(n.children, Entered(n, s));
    }
  }

  lemma {:induction false} OneFlushPerTypeAll(ns: seq<Node>, s: State)
    ensures |FlushesAll(ns, s)| == TypeCountAll(ns)
    decreases ns
  {
    if ns != [] {
      var front := ns[..|ns| - 1];
      OneFlushPerTypeAll(front, s);
      OneFlushPerType(ns[|ns| - 1], WalkedAll(front, s));
    }
  }

  /** Every flush is a closed block: it ends with `\n}\n`. */
  lemma {:induction false} FlushesClosed(n: Node, s: State)
    ensures forall i :: 0 <= i < |Flushes(n, s)| ==> EndsWith(Flushes(n, s)[i], "\n}\n")
    decreases n
  {
    if !n.IsMemberDecl() {
      var entered := Entered(n, s);
      var inner := FlushesAll(n.children, entered);
      FlushesClosedAll(n.children, entered);
      if n.IsTypeDecl() {
        var block := WalkedAll(n.children, entered).currentInterface + "\n}\n";
        assert Flushes(n, s) == inner + [block];
        assert EndsWith(block, "\n}\n");
      }
    }
  }

  lemma {:induction false} FlushesClosedAll(ns: seq<Node>, s: State)
    ensures forall i :: 0 <= i < |FlushesAll(ns, s)| ==> EndsWith(FlushesAll(ns, s)[i], "\n}\n")
    decreases ns
  {
    if ns != [] {
      var front := ns[..|ns| - 1];
      FlushesClosedAll(front, s);
      FlushesClosed(ns[|ns| - 1], WalkedAll(front, s));
    }
  }

  /** The result only grows: whatever it held before a walk is a prefix of what it holds after. */
  lemma ResultAppendOnly(n: Node, s: State)
    ensures StartsWith(Walked(n, s).result, s.result)
  {
    ResultGainsFlushes(n, s);
    assert Walked(n, s).result[..|s.result|] == s.result;
  }

  /** A tree without type declarations adds nothing to the result; members outside types are lost. */
  lemma NoTypesNoOutput(n: Node, s: State)
    requires TypeCount(n) == 0
    ensures Walked(n, s).result == s.result
  {
    ResultGainsFlushes(n, s);
    OneFlushPerType(n, s);
    assert Flushes(n, s) == [];
  }

  // ----- Types whose bodies hold no further types -----

  /**
   * The member lines a walk of `n` adds to the buffer when it meets no type
   * declaration, for a buffer that is (`inProtocol`) or is not a protocol's.
   */
  function Lines(n: Node, inProtocol: bool): string
    decreases n
  {
    if n.IsMemberDecl() then
      if inProtocol || "public" in n.modifiers.names || "open" in n.modifiers.names then Rendered(n) else ""
    else LinesAll(n.children, inProtocol)
  }

  function LinesAll(ns: seq<Node>, inProtocol: bool): string
    decreases ns
  {
    if ns == [] then "" else LinesAll(ns[..|ns| - 1], inProtocol) + Lines(ns[|ns| - 1], inProtocol)
  }

  lemma {:induction false} LinesStartWithNewline(n: Node, inProtocol: bool)
    ensures Lines(n, inProtocol) == "" || Lines(n, inProtocol)[0] == '\n'
    decreases n
  {
    if n.IsMemberDecl() {
      RenderedStartsWithNewline(n);
    } else {
      LinesAllStartWithNewline(n.children, inProtocol);
    }
  }

  lemma {:induction false} LinesAllStartWithNewline(ns: seq<Node>, inProtocol: bool)
    ensures LinesAll(ns, inProtocol) == "" || LinesAll(ns, inProtocol)[0] == '\n'
    decreases ns
  {
    if ns != [] {
      LinesAllStartWithNewline(ns[..|ns| - 1], inProtocol);
      LinesStartWithNewline(ns[|ns| - 1], inProtocol);
    }
  }

  /** Appending text that starts with a newline does not change whether the buffer starts with `protocol`. */
  lemma ProtocolPrefixStable(c: string, more: string)
    requires more == "" || more[0] == '\n'
    ensures StartsWith(c + more, "protocol") == StartsWith(c, "protocol")
  {
    if |c| >= |"protocol"| {
      assert (c + more)[..|"protocol"|] == c[..|"protocol"|];
    } else if more != [] {
      assert (c + more)[|c|] == '\n';
    }
  }

  /** Without type declarations, a walk adds the lines of the kept members to the buffer and nothing to the result. */
  lemma {:induction false} WalkWithoutTypes(n: Node, s: State)
    requires TypeCount(n) == 0
    ensures Walked(n, s) == State(s.currentInterface + Lines(n, StartsWith(s.currentInterface, "protocol")), s.result)
    decreases n
  {
    if n.IsMemberDecl() {
      WalkedMember(n, s);
    } else {
      WalkedBranch(n, s);
      WalkAllWithoutTypes(n.children, s);
    }
  }

  lemma {:induction false} WalkAllWithoutTypes(ns: seq<Node>, s: State)
    requires TypeCountAll(ns) == 0
    ensures WalkedAll(ns, s) == State(s.currentInterface + LinesAll(ns, StartsWith(s.currentInterface, "protocol")), s.result)
    decreases ns
  {
    if ns != [] {
      var front := ns[..|ns| - 1];
      var last := ns[|ns| - 1];
      var p := StartsWith(s.currentInterface, "protocol");
      WalkAllWithoutTypes(front, s);
      WalkedAllLast(ns, s);
      var mid := WalkedAll(front, s);
      LinesAllStartWithNewline(front, p);
      ProtocolPrefixStable(s.currentInterface, LinesAll(front, p));
      WalkWithoutTypes(last, mid);
      assert LinesAll(ns, p) == LinesAll(front, p) + Lines(last, p);
      AppendAssoc(s.currentInterface, LinesAll(front, p), Lines(last, p));
    }
  }

  /** A block as the extractor prints it: the header, the kept member lines, the closing brace. */
  function Block(t: Node): string
    requires t.IsTypeDecl()
  {
    Header(t) + LinesAll(t.children, t.ProtocolDecl?) + "\n}"
  }

  /** A type with no type declarations inside moves exactly its block and a newline into the result. */
  lemma FlatTypeBlock(t: Node, s: State)
    requires t.IsTypeDecl() && TypeCountAll(t.children) == 0
    ensures Walked(t, s) == State("", s.result + Block(t) + "\n")
  {
    var entered := Entered(t, s);
    assert entered == State(Header(t), s.result);
    assert Header(t)[0] == Keyword(t)[0];
    assert StartsWith(Header(t), "protocol") == t.ProtocolDecl?;
    WalkAllWithoutTypes(t.children, entered);
    TypeWalkResult(t, s);
    var lines := LinesAll(t.children, t.ProtocolDecl?);
    AppendAssoc(s.result, Header(t) + lines, "\n}\n");
    AppendAssoc(Header(t) + lines, "\n}", "\n");
    AppendAssoc(s.result, Header(t) + lines + "\n}", "\n");
  }

  /** A type with no kept members prints as `<kind> <Name> {`, a newline and `}`. */
  lemma EmptyTypeBlock(t: Node, s: State)
    requires t.IsTypeDecl() && TypeCountAll(t.children) == 0
    requires LinesAll(t.children, t.ProtocolDecl?) == ""
    ensures Walked(t, s).result == s.result + (Keyword(t) + " " + t.name + " {\n}\n")
  {
    FlatTypeBlock(t, s);
    assert Block(t) == Header(t) + "\n}";
    AppendAssoc(s.result, Block(t), "\n");
    assert Header(t) + "\n}" + "\n" == Keyword(t) + " " + t.name + " {\n}\n";
  }

  // ----- Whole files -----

  /** The type declarations a walk of `n` meets outside any type or member, in source order. */
  function TopLevelTypes(n: Node): seq<Node>
    decreases n
  {
    if n.IsTypeDecl() then [n]
    else if n.IsMemberDecl() then []
    else TopLevelTypesAll(n.children)
  }

  function TopLevelTypesAll(ns: seq<Node>): seq<Node>
    decreases ns
  {
    if ns == [] then [] else TopLevelTypesAll(ns[..|ns| - 1]) + TopLevelTypes(ns[|ns| - 1])
  }

  /** A type declaration with no type declarations inside. */
  predicate IsFlatType(t: Node) {
    t.IsTypeDecl() && TypeCountAll(t.children) == 0
  }

  /** Every one of `ts` is a flat type (stated from the end, as the walk meets them). */
  predicate AllFlat(ts: seq<Node>)
    decreases ts
  {
    ts == [] || (AllFlat(ts[..|ts| - 1]) && IsFlatType(ts[|ts| - 1]))
  }

  lemma {:induction false} AllFlatIff(ts: seq<Node>)
    ensures AllFlat(ts) <==> forall i :: 0 <= i < |ts| ==> IsFlatType(ts[i])
    decreases ts
  {
    if ts != [] {
      var front := ts[..|ts| - 1];
      AllFlatIff(front);
      assert forall i :: 0 <= i < |front| ==> front[i] == ts[i];
    }
  }

  lemma {:induction false} AllFlatAppend(a: seq<Node>, b: seq<Node>)
    ensures AllFlat(a + b) <==> AllFlat(a) && AllFlat(b)
    decreases b
  {
    if b == [] {
      assert a + b == a;
    } else {
      assert (a + b)[..|a + b| - 1] == a + b[..|b| - 1];
      assert (a + b)[|a + b| - 1] == b[|b| - 1];
      AllFlatAppend(a, b[..|b| - 1]);
    }
  }

  /** The blocks of the given types. */
  function Blocks(ts: seq<Node>): (bs: seq<string>)
    requires AllFlat(ts)
    ensures |bs| == |ts|
    decreases ts
  {
    if ts == [] then [] else Blocks(ts[..|ts| - 1]) + [Block(ts[|ts| - 1])]
  }

  /** What the result gains from the given types: each block followed by a newline. */
  function BlocksText(ts: seq<Node>): string
    requires AllFlat(ts)
    decreases ts
  {
    if ts == [] then "" else BlocksText(ts[..|ts| - 1]) + (Block(ts[|ts| - 1]) + "\n")
  }

  lemma {:induction false} BlocksTextAppend(a: seq<Node>, b: seq<Node>)
    requires AllFlat(a) && AllFlat(b)
    ensures AllFlat(a + b) && BlocksText(a + b) == BlocksText(a) + BlocksText(b)
    decreases b
  {
    AllFlatAppend(a, b);
    if b == [] {
      assert a + b == a;
    } else {
      var front := b[..|b| - 1];
      var last := b[|b| - 1];
      assert (a + b)[..|a + b| - 1] == a + front;
      assert (a + b)[|a + b| - 1] == last;
      BlocksTextAppend(a, front);
      AppendAssoc(BlocksText(a), BlocksText(front), Block(last) + "\n");
    }
  }

  /** The inductive step of `WalkOfFlatTypes` at a type declaration. */
  lemma FlatTopLevelType(n: Node, s: State)
    requires n.IsTypeDecl() && AllFlat(TopLevelTypes(n))
    ensures Walked(n, s).result == s.result + BlocksText(TopLevelTypes(n))
  {
    assert TopLevelTypes(n) == [n];
    assert [n][..0] == [];
    assert IsFlatType(n);
    FlatTypeBlock(n, s);
    assert BlocksText([n]) == "" + (Block(n) + "\n");
    AppendAssoc(s.result, Block(n), "\n");
  }

  /**
   * A walk meets its top-level types in order; when none of them holds a
   * further type, the result gains exactly their blocks, each followed by a
   * newline. Members outside any type add nothing.
   */
  lemma {:induction false} WalkOfFlatTypes(n: Node, s: State)
    requires AllFlat(TopLevelTypes(n))
    ensures Walked(n, s).result == s.result + BlocksText(TopLevelTypes(n))
    decreases n
  {
    if n.IsTypeDecl() {
      FlatTopLevelType(n, s);
    } else if n.IsMemberDecl() {
      WalkedMember(n, s);
      EnteredKeepsResult(n, s);
    } else {
      WalkedBranch(n, s);
      WalkAllOfFlatTypes(n.children, s);
    }
  }

  lemma {:induction false} WalkAllOfFlatTypes(ns: seq<Node>, s: State)
    requires AllFlat(TopLevelTypesAll(ns))
    ensures WalkedAll(ns, s).result == s.result + BlocksText(TopLevelTypesAll(ns))
    decreases ns
  {
    if ns != [] {
      var front := ns[..|ns| - 1];
      var last := ns[|ns| - 1];
      var a, b := TopLevelTypesAll(front), TopLevelTypes(last);
      assert TopLevelTypesAll(ns) == a + b;
      AllFlatAppend(a, b);
      WalkAllOfFlatTypes(front, s);
      WalkedAllLast(ns, s);
      WalkOfFlatTypes(last, WalkedAll(front, s));
      BlocksTextAppend(a, b);
      AppendAssoc(s.result, BlocksText(a), BlocksText(b));
    }
  }

  lemma BlockEnds(t: Node)
    requires t.IsTypeDecl()
    ensures |Block(t)| > 0 && !IsWhitespace(Block(t)[0]) && Block(t)[|Block(t)| - 1] == '}'
  {
    assert Block(t)[0] == Keyword(t)[0];
  }

  /** The blocks joined by newlines, plus the final newline, is the text the result gains. */
  lemma {:induction false} BlocksTextIsJoin(ts: seq<Node>)
    requires ts != [] && AllFlat(ts)
    ensures BlocksText(ts) == JoinWith(Blocks(ts), '\n') + "\n"
    ensures var j := JoinWith(Blocks(ts), '\n');
            |j| > 0 && !IsWhitespace(j[0]) && j[|j| - 1] == '}'
    decreases ts
  {
    var front := ts[..|ts| - 1];
    var last := ts[|ts| - 1];
    BlockEnds(last);
    if front == [] {
      assert Blocks(ts) == [Block(last)];
      assert BlocksText(ts) == "" + (Block(last) + "\n");
    } else {
      BlocksTextIsJoin(front);
      JoinWithAppend(Blocks(front), Block(last), '\n');
      var j := JoinWith(Blocks(front), '\n');
      assert (j + "\n" + Block(last))[0] == j[0];
      AppendAssoc(j, "\n", Block(last) + "\n");
      AppendAssoc(j + "\n", Block(last), "\n");
    }
  }

  /**
   * From a fresh extractor, a file whose top-level types hold no further types
   * yields their blocks in source order, joined by single newlines; no types at
   * all yields the empty string.
   */
  lemma FlatFileOutput(root: Node)
    requires AllFlat(TopLevelTypes(root))
    ensures Trim(Walked(root, State("", "")).result) == JoinWith(Blocks(TopLevelTypes(root)), '\n')
  {
    var ts := TopLevelTypes(root);
    WalkOfFlatTypes(root, State("", ""));
    assert Walked(root, State("", "")).result == BlocksText(ts);
    if ts != [] {
      BlocksTextIsJoin(ts);
      TrimDropsFinalNewline(JoinWith(Blocks(ts), '\n'));
    }
  }

  // ----- Quirks kept from the code -----

  lemma {:induction false} WalkedAllAppend(a: seq<Node>, b: seq<Node>, s: State)
    ensures WalkedAll(a + b, s) == WalkedAll(b, WalkedAll(a, s))
    decreases |b|
  {
    if b == [] {
      assert a + b == a;
    } else {
      assert (a + b)[..|a + b| - 1] == a + b[..|b| - 1];
      assert (a + b)[|a + b| - 1] == b[|b| - 1];
      WalkedAllAppend(a, b[..|b| - 1], s);
    }
  }

  /** The children of `outer`, walked from `entered`, pass through the states `before`, `inner` and `after` leave. */
  lemma NestedChildrenWalk(before: seq<Node>, inner: Node, after: seq<Node>, entered: State)
    ensures WalkedAll(before + [inner] + after, entered)
            == WalkedAll(after, Walked(inner, WalkedAll(before, entered)))
  {
    WalkedAllAppend(before + [inner], after, entered);
    WalkedAllAppend(before, [inner], entered);
    WalkedAllLast([inner], WalkedAll(before, entered));
    assert [inner][..0] == [];
  }

  /**
   * A type nested in another discards the outer buffer on entry and leaves it
   * empty on exit: the outer header and the members before the inner type are
   * lost, and the outer members after it are rendered as outside any protocol,
   * behind the inner block.
   */
  lemma NestedTypeOverwritesOuter(outer: Node, before: seq<Node>, inner: Node, after: seq<Node>, s: State)
    requires outer.IsTypeDecl() && outer.children == before + [inner] + after
    requires TypeCountAll(before) == 0 && TypeCountAll(after) == 0
    requires inner.IsTypeDecl() && TypeCountAll(inner.children) == 0
    ensures Walked(outer, s) == State("", s.result + Block(inner) + "\n" + LinesAll(after, false) + "\n}\n")
  {
    var entered := Entered(outer, s);
    EnteredKeepsResult(outer, s);
    NestedChildrenWalk(before, inner, after, entered);
    WalkAllWithoutTypes(before, entered);
    var m1 := WalkedAll(before, entered);
    FlatTypeBlock(inner, m1);
    var m2 := Walked(inner, m1);
    WalkAllWithoutTypes(after, m2);
    assert !StartsWith("", "protocol");
    var m3 := WalkedAll(after, m2);
    assert m3 == State(LinesAll(after, false), m2.result);
    WalkedBranch(outer, s);
    TypeExitFlushes(outer, m3);
  }

  /**
   * The result is never reset: walking the same file twice on one extractor
   * leaves its blocks in the result twice.
   */
  lemma ResultNotResetBetweenCalls(root: Node)
    requires AllFlat(TopLevelTypes(root))
    ensures Walked(root, Walked(root, State("", ""))).result
            == BlocksText(TopLevelTypes(root)) + BlocksText(TopLevelTypes(root))
  {
    WalkOfFlatTypes(root, State("", ""));
    WalkOfFlatTypes(root, Walked(root, State("", "")));
  }
}
