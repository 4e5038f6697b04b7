/**
 * Reading back a call written as text in the shape `Receiver.method(argument)`,
 * the shape of every replacement the cop writes. The reader takes the receiver
 * up to the first `.`, the method up to the next `(`, and the argument text up
 * to the final `)`, so the argument text itself may contain anything.
 */
module CallSyntax {
  import opened Wrappers

  datatype CallText = CallText(receiver: string, methodName: string, argText: string)

  /** `receiver.methodName(argText)` */
  function Join(c: CallText): string {
    c.receiver + "." + c.methodName + "(" + c.argText + ")"
  }

  /** Position of the first `ch` in `s`, if any. */
  function IndexOf(s: string, ch: char): (r: Option<nat>)
    ensures r.None? <==> ch !in s
    ensures r.Some? ==> r.value < |s| && s[r.value] == ch
    ensures r.Some? ==> forall j :: 0 <= j < r.value ==> s[j] != ch
  {
    if s == [] then None
    else if s[0] == ch then Some(0)
    else
      var rest := IndexOf(s[1..], ch);
      if rest.None? then None else Some(rest.value + 1)
  }

  /** The first `ch` after a prefix free of `ch` is the one just past that prefix. */
  lemma {:induction false} IndexOfFirst(a: string, ch: char, b: string)
    requires ch !in a
    ensures IndexOf(a + [ch] + b, ch) == Some(|a|)
  {
    if a != [] {
      assert (a + [ch] + b)[1..] == a[1..] + [ch] + b;
      IndexOfFirst(a[1..], ch, b);
    }
  }

  /** A text cut at its separators `.` (at `d`) and `(` (at `d + 1 + p`) and its final `)` joins back whole. */
  lemma Reassemble(text: string, d: nat, p: nat)
    requires d + p + 2 < |text|
    requires text[d] == '.' && text[d + 1 + p] == '(' && text[|text| - 1] == ')'
    ensures Join(Parts(text, d, p)) == text
  {
    var c := Parts(text, d, p);
    var j := Join(c);
    assert |j| == |text|;
    forall i | 0 <= i < |j|
      ensures j[i] == text[i]
    {
      if i < d {
        assert j[i] == c.receiver[i];
      } else if i == d {
      } else if i < d + 1 + p {
        assert j[i] == c.methodName[i - d - 1];
      } else if i == d + 1 + p {
      } else if i < |text| - 1 {
        assert j[i] == c.argText[i - d - p - 2];
      }
    }
  }

  /** The parts of `text` around a `.` at `d`, a `(` at `d + 1 + p` and the final character. */
  function Parts(text: string, d: nat, p: nat): CallText
    requires d + p + 2 < |text|
  {
    CallText(text[..d], text[d + 1..d + 1 + p], text[d + p + 2..|text| - 1])
  }

  /** The receiver, method and argument text of a call written as text, if it has that shape. */
  function SplitCall(text: string): (r: Option<CallText>)
    ensures r.Some? ==> '.' !in r.value.receiver && '(' !in r.value.methodName
    ensures r.Some? ==> |r.value.receiver| + |r.value.methodName| + |r.value.argText| + 3 == |text|
  {
    var dot := IndexOf(text, '.');
    if dot.None? then None
    else
      var paren := IndexOf(text[dot.value + 1..], '(');
      if paren.None? then None
      else if dot.value + paren.value + 2 < |text| && text[|text| - 1] == ')' then
        assert text[dot.value + 1..][..paren.value] == text[dot.value + 1..dot.value + 1 + paren.value];
        Some(Parts(text, dot.value, paren.value))
      else None
  }

  /** What is read back joins into the text it was read from. */
  lemma SplitCallJoins(text: string)
    requires SplitCall(text).Some?
    ensures Join(SplitCall(text).value) == text
  {
    var d := IndexOf(text, '.').value;
    var p := IndexOf(text[d + 1..], '(').value;
    assert SplitCall(text).value == Parts(text, d, p);
    Reassemble(text, d, p);
  }

  /** Where the separators are found determines the parts read back. */
  lemma SplitAt(text: string, d: nat, p: nat)
    requires IndexOf(text, '.') == Some(d)
    requires IndexOf(text[d + 1..], '(') == Some(p)
    requires d + p + 2 < |text| && text[|text| - 1] == ')'
    ensures SplitCall(text) == Some(Parts(text, d, p))
  {
  }

  /** In a joined call the first `.` ends the receiver and the next `(` ends the method. */
  lemma JoinSeparators(c: CallText)
    requires '.' !in c.receiver && '(' !in c.methodName
    ensures IndexOf(Join(c), '.') == Some(|c.receiver|)
    ensures IndexOf(Join(c)[|c.receiver| + 1..], '(') == Some(|c.methodName|)
  {
    var tail := c.argText + [')'];
    var rest := c.methodName + ['('] + tail;
    assert Join(c) == c.receiver + ['.'] + rest;
    IndexOfFirst(c.receiver, '.', rest);
    assert Join(c)[|c.receiver| + 1..] == rest;
    IndexOfFirst(c.methodName, '(', tail);
  }

  /** Cutting a joined call at its own separators gives back its parts. */
  lemma PartsOfJoin(c: CallText)
    ensures Parts(Join(c), |c.receiver|, |c.methodName|) == c
  {
    var text := Join(c);
    var d, p := |c.receiver|, |c.methodName|;
    assert text[..d] == c.receiver;
    assert text[d + 1..d + 1 + p] == c.methodName;
    assert text[d + p + 2..|text| - 1] == c.argText;
  }

  /** Every call whose receiver has no `.` and whose method has no `(` reads back as itself. */
  lemma SplitJoin(c: CallText)
    requires '.' !in c.receiver && '(' !in c.methodName
    ensures SplitCall(Join(c)) == Some(c)
  {
    JoinSeparators(c);
    SplitAt(Join(c), |c.receiver|, |c.methodName|);
    PartsOfJoin(c);
  }
}
