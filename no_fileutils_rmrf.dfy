/**
 * The `Homebrew/NoFileutilsRmrf` cop: it flags `FileUtils.rm_rf`,
 * `FileUtils.rm_f`, `FileUtils.rmtree` and `Pathname.rmtree`, and corrects each
 * to `FileUtils.rm_r` or `FileUtils.rm` applied to the call's first argument.
 */
module NoFileutilsRmrf {
  import opened Wrappers
  import opened Ast
  import opened Corrector
  import opened CallSyntax

  /** The methods flagged on `FileUtils`; on `Pathname` only `rmtree` is. */
  const FileUtilsMethods: set<Symbol> := {"rm_rf", "rm_f", "rmtree"}

  /** `(const {nil? cbase} name)`: the constant `name`, written bare or with a leading `::`. */
  predicate IsTopLevelConst(n: Node, name: Symbol) {
    n.Const? && (n.scope.None? || n.scope.value.Cbase?) && n.name == name
  }

  /** A send node whose receiver is the top-level constant `name`. */
  predicate SentTo(n: Node, name: Symbol) {
    n.Send? && n.receiver.Some? && IsTopLevelConst(n.receiver.value, name)
  }

  /** `(send (const {nil? cbase} :FileUtils) {:rm_rf :rm_f :rmtree} ...)` */
  predicate FileutilsRmRF(n: Node) {
    SentTo(n, "FileUtils") && n.methodName in FileUtilsMethods
  }

  /** `(send (const {nil? cbase} :Pathname) :rmtree ...)` */
  predicate PathnameRmtree(n: Node) {
    SentTo(n, "Pathname") && n.methodName == "rmtree"
  }

  predicate NeitherRmRfNorRmtree(n: Node) {
    !FileutilsRmRF(n) && !PathnameRmtree(n)
  }

  /** The safe method that replaces a flagged one. */
  function SafeMethod(methodName: Symbol): (r: Symbol)
    ensures r == "rm_r" <==> methodName == "rm_rf" || methodName == "rmtree"
    ensures r == "rm" <==> methodName != "rm_rf" && methodName != "rmtree"
  {
    if methodName == "rm_rf" || methodName == "rmtree" then "rm_r" else "rm"
  }

  /** The safe method is never itself a flagged one, on either receiver. */
  lemma SafeMethodNotFlagged(methodName: Symbol)
    ensures SafeMethod(methodName) !in FileUtilsMethods
    ensures SafeMethod(methodName) != "rmtree"
  {
  }

  /**
   * On a flagged call the safe method drops the "force": `rm_f` becomes `rm`,
   * while the recursive `rm_rf` and `rmtree` become the recursive `rm_r`.
   */
  lemma SafeMethodOfFlagged(n: Node)
    requires !NeitherRmRfNorRmtree(n)
    ensures SafeMethod(n.methodName) == "rm" <==> n.methodName == "rm_f"
    ensures SafeMethod(n.methodName) == "rm_r" <==> n.methodName == "rm_rf" || n.methodName == "rmtree"
  {
  }

  /**
   * The text that replaces a flagged call: reading it back gives the receiver
   * `FileUtils`, the safe method and the argument text unchanged.
   */
  function Replacement(methodName: Symbol, argSource: string): (r: string)
    ensures SplitCall(r) == Some(CallText("FileUtils", SafeMethod(methodName), argSource))
  {
    var c := CallText("FileUtils", SafeMethod(methodName), argSource);
    assert "FileUtils"[..] == ['F', 'i', 'l', 'e', 'U', 't', 'i', 'l', 's'];
    SplitJoin(c);
    Join(c)
  }

  /** A correction: the span to replace and the text to put there. */
  datatype Edit = Edit(range: Span, text: string)

  /**
   * What the cop does with one send node: no offence, or an offence whose
   * correction is `None` when there is no first argument to copy (the
   * corrector then fails on `nil`).
   */
  datatype Verdict = NoOffense | Offense(correction: Option<Edit>)

  /** The cop's handler for one send node of the buffer `buf`. */
  function OnSend(buf: string, n: Node): (v: Verdict)
    requires n.Send?
    requires |n.args| > 0 ==> InBuffer(n.args[0].span, |buf|)
    ensures v.NoOffense? <==> NeitherRmRfNorRmtree(n)
    ensures v.Offense? ==> (v.correction.Some? <==> |n.args| > 0)
    ensures v.Offense? && v.correction.Some? ==>
              v.correction.value.range == n.span &&
              SplitCall(v.correction.value.text)
                == Some(CallText("FileUtils", SafeMethod(n.methodName), Source(buf, n.args[0])))
  {
    if NeitherRmRfNorRmtree(n) then NoOffense
    else if |n.args| == 0 then Offense(None)
    else Offense(Some(Edit(n.span, Replacement(n.methodName, Source(buf, n.args[0])))))
  }

  // Which calls are flagged.

  /** Every flagged method on `FileUtils` or `::FileUtils` is an offence, with any arguments. */
  lemma FileUtilsMethodsFlagged(buf: string, scope: Option<Node>, constSpan: Span,
                                methodName: Symbol, args: seq<Node>, span: Span)
    requires methodName in FileUtilsMethods
    requires scope.None? || scope.value.Cbase?
    requires |args| > 0 ==> InBuffer(args[0].span, |buf|)
    ensures OnSend(buf, Send(Some(Const(scope, "FileUtils", constSpan)), methodName, args, span)).Offense?
  {
  }

  /** `rmtree` on `Pathname` or `::Pathname` is an offence, with any arguments. */
  lemma PathnameRmtreeFlagged(buf: string, scope: Option<Node>, constSpan: Span, args: seq<Node>, span: Span)
    requires scope.None? || scope.value.Cbase?
    requires |args| > 0 ==> InBuffer(args[0].span, |buf|)
    ensures OnSend(buf, Send(Some(Const(scope, "Pathname", constSpan)), "rmtree", args, span)).Offense?
  {
  }

  /** `FileUtils` and `::FileUtils` (likewise `Pathname`) get the same verdict and correction. */
  lemma BareAndRootedAgree(buf: string, name: Symbol, bareSpan: Span, rootedSpan: Span, cbaseSpan: Span,
                           methodName: Symbol, args: seq<Node>, span: Span)
    requires |args| > 0 ==> InBuffer(args[0].span, |buf|)
    ensures OnSend(buf, Send(Some(Const(None, name, bareSpan)), methodName, args, span))
         == OnSend(buf, Send(Some(Const(Some(Cbase(cbaseSpan)), name, rootedSpan)), methodName, args, span))
  {
  }

  /** A call without a receiver, such as `rm_rf(x)`, is never flagged. */
  lemma ReceiverlessNeverFlagged(methodName: Symbol, args: seq<Node>, span: Span)
    ensures NeitherRmRfNorRmtree(Send(None, methodName, args, span))
  {
  }

  /** A receiver constant under any other namespace, such as `Foo::FileUtils`, is never flagged. */
  lemma NamespacedNeverFlagged(q: Node, name: Symbol, constSpan: Span, methodName: Symbol, args: seq<Node>, span: Span)
    requires !q.Cbase?
    ensures NeitherRmRfNorRmtree(Send(Some(Const(Some(q), name, constSpan)), methodName, args, span))
  {
  }

  /** A receiver that is not a constant at all (a variable, a call) is never flagged. */
  lemma NonConstantReceiverNeverFlagged(recv: Node, methodName: Symbol, args: seq<Node>, span: Span)
    requires !recv.Const?
    ensures NeitherRmRfNorRmtree(Send(Some(recv), methodName, args, span))
  {
  }

  /** On `Pathname` only `rmtree` is flagged. */
  lemma PathnameOnlyRmtree(n: Node)
    requires SentTo(n, "Pathname")
    ensures !NeitherRmRfNorRmtree(n) <==> n.methodName == "rmtree"
  {
  }

  /** Methods outside `rm_rf`, `rm_f` and `rmtree`, such as `cp_r`, are never flagged. */
  lemma OtherMethodsNeverFlagged(n: Node)
    requires n.Send? && n.methodName !in FileUtilsMethods
    ensures NeitherRmRfNorRmtree(n)
  {
  }

  /** The arguments play no part in the verdict: any number of them, zero included. */
  lemma ArgumentsUnconstrained(n: Node, args: seq<Node>)
    requires n.Send?
    ensures NeitherRmRfNorRmtree(n.(args := args)) == NeitherRmRfNorRmtree(n)
  {
  }

  // What text is produced.

  /** Arguments after the first are dropped from the correction. */
  lemma FurtherArgumentsDropped(buf: string, n: Node, more: seq<Node>)
    requires n.Send? && |n.args| > 0 && InBuffer(n.args[0].span, |buf|)
    ensures OnSend(buf, n.(args := n.args + more)) == OnSend(buf, n)
  {
    assert (n.args + more)[0] == n.args[0];
  }

  /**
   * Applying a correction replaces exactly the call's span: the text before and
   * after it is kept, and in its place stands `FileUtils.<safe>(<first argument>)`.
   */
  lemma CorrectedBuffer(buf: string, n: Node)
    requires n.Send? && InBuffer(n.span, |buf|)
    requires |n.args| > 0 && InBuffer(n.args[0].span, |buf|)
    requires !NeitherRmRfNorRmtree(n)
    ensures OnSend(buf, n).correction.Some?
    ensures var text := OnSend(buf, n).correction.value.text;
            var r := Replace(buf, n.span, text);
            var b := n.span.beginPos;
            r[..b] == buf[..b] &&
            r[b + |text|..] == buf[n.span.endPos..] &&
            SplitCall(r[b..b + |text|]) == Some(CallText("FileUtils", SafeMethod(n.methodName), Source(buf, n.args[0])))
  {
  }

  // The corrected call is not flagged again.

  /** The call that the text `R.m(...)` stands for: method `m` sent to the bare constant `R`. */
  function CallNode(c: CallText, constSpan: Span, args: seq<Node>, span: Span): Node {
    Send(Some(Const(None, c.receiver, constSpan)), c.methodName, args, span)
  }

  /** Whatever its arguments and spans, the call written by a correction is not flagged. */
  lemma CorrectionIsFixedPoint(buf: string, n: Node, constSpan: Span, args: seq<Node>, span: Span)
    requires n.Send? && |n.args| > 0 && InBuffer(n.args[0].span, |buf|)
    requires !NeitherRmRfNorRmtree(n)
    ensures OnSend(buf, n).correction.Some?
    ensures var c := SplitCall(OnSend(buf, n).correction.value.text);
            c.Some? && c.value.receiver == "FileUtils" &&
            NeitherRmRfNorRmtree(CallNode(c.value, constSpan, args, span))
  {
    SafeMethodNotFlagged(n.methodName);
  }
}
