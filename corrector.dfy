/** The corrector's one operation used by the cop: replacing a span of the buffer. */
module Corrector {
  import opened Ast

  /** The buffer with `range` replaced by `text`; everything around it is kept. */
  function Replace(buf: string, range: Span, text: string): (r: string)
    requires InBuffer(range, |buf|)
    ensures |r| == |buf| - (range.endPos - range.beginPos) + |text|
    ensures r[..range.beginPos] == buf[..range.beginPos]
    ensures r[range.beginPos..range.beginPos + |text|] == text
    ensures r[range.beginPos + |text|..] == buf[range.endPos..]
  {
    var r := buf[..range.beginPos] + text + buf[range.endPos..];
    assert r[range.beginPos..range.beginPos + |text|] == text;
    r
  }

  /** Putting the old text back over the new span restores the buffer. */
  lemma ReplaceUndo(buf: string, range: Span, text: string)
    requires InBuffer(range, |buf|)
    ensures var b := range.beginPos;
            Replace(Replace(buf, range, text), Span(b, b + |text|), buf[b..range.endPos]) == buf
  {
    var b, e := range.beginPos, range.endPos;
    var once := Replace(buf, range, text);
    assert once[..b] == buf[..b];
    assert once[b + |text|..] == buf[e..];
    assert buf == buf[..b] + buf[b..e] + buf[e..];
  }

  /** Replacing a span by its own text changes nothing. */
  lemma ReplaceWithOwnText(buf: string, range: Span)
    requires InBuffer(range, |buf|)
    ensures Replace(buf, range, buf[range.beginPos..range.endPos]) == buf
  {
    var b, e := range.beginPos, range.endPos;
    assert buf == buf[..b] + buf[b..e] + buf[e..];
  }
}
