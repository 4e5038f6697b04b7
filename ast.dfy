/**
 * The part of RuboCop's abstract syntax tree that the cop inspects. Nodes come
 * from the parser already built; they are never changed.
 */
module Ast {
  import opened Wrappers

  /** A Ruby symbol such as `:rm_rf`, by its name. */
  type Symbol = string

  /** A half-open range `[beginPos, endPos)` of character offsets into the source buffer. */
  datatype Span = Span(beginPos: nat, endPos: nat)

  predicate InBuffer(s: Span, len: nat) {
    s.beginPos <= s.endPos <= len
  }

  /**
   * `Send` is a method call `receiver.methodName(args)` (the receiver is absent for
   * `rm_rf(x)`); `Const` is a constant reference whose scope is absent
   * (`FileUtils`), a `Cbase` (`::FileUtils`) or any other node (`Foo::FileUtils`);
   * `Other` stands for every remaining kind of node (literals, variables, ...).
   * Every node knows the span of source text it was parsed from.
   */
  datatype Node =
    | Send(receiver: Option<Node>, methodName: Symbol, args: seq<Node>, span: Span)
    | Const(scope: Option<Node>, name: Symbol, span: Span)
    | Cbase(span: Span)
    | Other(kind: Symbol, span: Span)

  /** The node's source text, exactly as it stands in the buffer. */
  function Source(buf: string, n: Node): (r: string)
    requires InBuffer(n.span, |buf|)
    ensures |r| == n.span.endPos - n.span.beginPos
    ensures forall i :: 0 <= i < |r| ==> r[i] == buf[n.span.beginPos + i]
  {
    buf[n.span.beginPos..n.span.endPos]
  }
}
