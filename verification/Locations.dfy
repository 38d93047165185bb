/** Source locations (dolang-compile/src/source.rs): byte offsets, and lines and columns
    counted in characters. */
module Locations {

  import opened Varint
  import opened Utf8
  import Spans

  // ----- newlines -----

  /** The offsets of the newlines. */
  function NewlinesOf(content: seq<byte>): (r: seq<nat>)
    ensures forall i :: 0 <= i < |r| ==> r[i] < |content|
    ensures forall i, j :: 0 <= i < j < |r| ==> r[i] < r[j]
  {
    if content == [] then []
    else
      var last := |content| - 1;
      NewlinesOf(content[..last]) + if content[last] == 10 then [last] else []
  }

  /** How many of the increasing offsets lie before a given one. */
  function PartitionPoint(newlines: seq<nat>, offset: nat): (n: nat)
    ensures n <= |newlines|
  {
    if newlines == [] then 0
    else if newlines[|newlines| - 1] < offset then |newlines|
    else PartitionPoint(newlines[..|newlines| - 1], offset)
  }

  lemma {:induction false} PartitionsPrefix(content: seq<byte>, offset: nat)
    requires offset <= |content|
    ensures var n := PartitionPoint(NewlinesOf(content), offset);
            && n == |NewlinesOf(content[..offset])|
            && NewlinesOf(content)[..n] == NewlinesOf(content[..offset])
  {
    if offset == |content| {
      assert content[..offset] == content;
    } else {
      var last := |content| - 1;
      PartitionsPrefix(content[..last], offset);
      assert content[..last][..offset] == content[..offset];
      var before := NewlinesOf(content[..last]);
      if content[last] == 10 {
        assert NewlinesOf(content)[..|before|] == before;
        assert PartitionPoint(NewlinesOf(content), offset) == PartitionPoint(before, offset);
      } else {
        assert NewlinesOf(content) == before;
      }
    }
  }

  lemma {:induction false} NewlinesAppend(a: seq<byte>, b: seq<byte>)
    requires 10 !in b
    ensures NewlinesOf(a + b) == NewlinesOf(a)
    decreases |b|
  {
    if b == [] {
      assert a + b == a;
    } else {
      var init, all := b[..|b| - 1], a + b;
      assert all[..|all| - 1] == a + init;
      assert all[|all| - 1] == b[|b| - 1];
      assert b[|b| - 1] != 10;
      NewlinesAppend(a, init);
    }
  }

  // ----- coordinates -----

  datatype Coord = Coord(line: nat, column: nat)

  /** The line of an offset, and how many bytes into the line it is. */
  function CoordOf(newlines: seq<nat>, offset: nat): Coord {
    var index := PartitionPoint(newlines, offset);
    if index == 0 then Coord(0, offset) else Coord(index, Below(offset, newlines[index - 1] + 1))
  }

  function Below(a: nat, b: nat): nat {
    if a < b then 0 else a - b
  }

  /** The number of characters in some bytes, which may cut one. */
  function Chars(text: seq<byte>): (n: nat)
    ensures n <= |text|
  {
    if text == [] then 0
    else Chars(text[..|text| - 1]) + if Continues(text[|text| - 1]) then 0 else 1
  }

  function LineStart(content: seq<byte>, newlines: seq<nat>, line: nat): nat {
    if line == 0 then 0 else if line - 1 < |newlines| then newlines[line - 1] + 1 else |content|
  }

  /** Where the character `count` after the one at `from` starts, or the end of the content. */
  function Advance(content: seq<byte>, from: nat, count: nat): nat
    decreases count
  {
    if from >= |content| then |content|
    else if count == 0 then from
    else Advance(content, from + WidthOf(content[from]), count - 1)
  }

  function Slice(content: seq<byte>, from: nat, to: nat): seq<byte> {
    if from <= to <= |content| then content[from..to] else []
  }

  /** The location of a range of bytes, in characters. */
  function Locate(content: seq<byte>, start: nat, end: nat): nat {
    var coord := CoordOf(NewlinesOf(content), start);
    Spans.New(coord.line, Chars(Slice(content, Below(start, coord.column), start)), Chars(Slice(content, start, end)))
  }

  datatype Range = Range(start: nat, end: nat)

  /** Where a location lies, in bytes. */
  function ByteRange(content: seq<byte>, span: nat): Range {
    var line := LineStart(content, NewlinesOf(content), Spans.Line(span));
    var begin := Advance(content, line, Spans.Column(span));
    Range(begin, Advance(content, begin, Spans.Len(span)))
  }

  /** The line and column, in characters, of a location's end. */
  function EndOf(content: seq<byte>, span: nat): Coord {
    var end := ByteRange(content, span).end;
    var coord := CoordOf(NewlinesOf(content), end);
    Coord(coord.line, Chars(Slice(content, Below(end, coord.column), end)))
  }

  // ----- the same in characters -----

  /** The line of a character: the newlines before it. */
  function LineNo(cs: seq<nat>, k: nat): nat
    requires k <= |cs|
  {
    if k == 0 then 0 else LineNo(cs, k - 1) + if cs[k - 1] == 10 then 1 else 0
  }

  /** The first character of a character's line. */
  function LineIndex(cs: seq<nat>, k: nat): (r: nat)
    requires k <= |cs|
    ensures r <= k
  {
    if k == 0 then 0 else if cs[k - 1] == 10 then k else LineIndex(cs, k - 1)
  }

  lemma {:induction false} NewlinesOfChar(before: seq<byte>, c: nat)
    requires IsScalar(c)
    ensures NewlinesOf(before + EncodeChar(c)) == NewlinesOf(before) + if c == 10 then [|before|] else []
  {
    CharShape(c);
    if c == 10 {
      assert (before + [10])[..|before|] == before;
    } else {
      NewlinesAppend(before, EncodeChar(c));
    }
  }

  // Where the line starts whose newlines before it are given.
  function AfterLast(newlines: seq<nat>): nat {
    if newlines == [] then 0 else newlines[|newlines| - 1] + 1
  }

  lemma {:induction false} CoordsAgree(cs: seq<nat>, k: nat)
    requires IsText(cs) && k <= |cs|
    ensures var newlines := NewlinesOf(Text(cs[..k]));
            |newlines| == LineNo(cs, k) && At(cs, LineIndex(cs, k)) == AfterLast(newlines) <= At(cs, k)
  {
    hide EncodeChar, NewlinesOf, Text, At;
    if k > 0 {
      CoordsAgree(cs, k - 1);
      AtNext(cs, k - 1);
      NewlinesOfChar(Text(cs[..k - 1]), cs[k - 1]);
      CharShape(cs[k - 1]);
      AtIs(cs, k - 1);
    } else {
      NoText(cs);
    }
  }

  lemma AtIs(cs: seq<nat>, k: nat)
    requires k <= |cs|
    ensures At(cs, k) == |Text(cs[..k])|
  {
  }

  lemma NoText(cs: seq<nat>)
    ensures At(cs, 0) == 0 && NewlinesOf(Text(cs[..0])) == []
  {
  }

  /** The coordinate of a character's first byte is its line, and the bytes since that
      line's first character. */
  lemma {:induction false} CoordAt(cs: seq<nat>, k: nat)
    requires IsText(cs) && k <= |cs|
    ensures At(cs, LineIndex(cs, k)) <= At(cs, k) <= |Text(cs)|
    ensures CoordOf(NewlinesOf(Text(cs)), At(cs, k)) == Coord(LineNo(cs, k), At(cs, k) - At(cs, LineIndex(cs, k)))
  {
    TextPrefix(cs, k);
    CoordsAgree(cs, k);
    PartitionsPrefix(Text(cs), At(cs, k));
    var newlines := NewlinesOf(Text(cs));
    var n := PartitionPoint(newlines, At(cs, k));
    if n > 0 {
      assert newlines[n - 1] == newlines[..n][n - 1];
    }
  }

  // A character adds one to the count.
  lemma {:induction false} CharsOfChar(before: seq<byte>, c: nat)
    requires IsScalar(c)
    ensures Chars(before + EncodeChar(c)) == Chars(before) + 1
  {
    CharShape(c);
    var r := EncodeChar(c);
    CharsAppend(before + r[..1], r[1..]);
    assert before + r[..1] + r[1..] == before + r;
    assert (before + r[..1])[..|before|] == before;
  }

  lemma {:induction false} CharsAppend(a: seq<byte>, b: seq<byte>)
    requires forall i :: 0 <= i < |b| ==> Continues(b[i])
    ensures Chars(a + b) == Chars(a)
    decreases |b|
  {
    if b == [] {
      assert a + b == a;
    } else {
      assert (a + b)[..|a + b| - 1] == a + b[..|b| - 1];
      CharsAppend(a, b[..|b| - 1]);
    }
  }

  lemma {:induction false} CharsBetween(cs: seq<nat>, i: nat, j: nat)
    requires IsText(cs) && i <= j <= |cs|
    ensures At(cs, i) <= At(cs, j) <= |Text(cs)|
    ensures Chars(Text(cs)[At(cs, i)..At(cs, j)]) == j - i
    decreases j
  {
    hide EncodeChar;
    TextPrefix(cs, j);
    AtIncreases(cs, i, j);
    if i < j {
      CharsBetween(cs, i, j - 1);
      AtNext(cs, j - 1);
      TextPrefix(cs, j - 1);
      var bytes := Text(cs);
      TextAt(cs, j - 1);
      assert bytes[At(cs, i)..At(cs, j)] == bytes[At(cs, i)..At(cs, j - 1)] + EncodeChar(cs[j - 1]);
      CharsOfChar(bytes[At(cs, i)..At(cs, j - 1)], cs[j - 1]);
    }
  }

  function Min(a: nat, b: nat): nat {
    if a < b then a else b
  }

  lemma {:induction false} AdvanceAt(cs: seq<nat>, k: nat, count: nat)
    requires IsText(cs) && k <= |cs|
    ensures Advance(Text(cs), At(cs, k), count) == At(cs, Min(k + count, |cs|))
    decreases count
  {
    hide EncodeChar, Text, At;
    TextPrefix(cs, |cs|);
    AtInjective(cs, k, |cs|);
    if k < |cs| && count > 0 {
      TextAt(cs, k);
      CharShape(cs[k]);
      AtNext(cs, k);
      AdvanceAt(cs, k + 1, count - 1);
    }
  }

  // ----- round trips -----

  lemma {:induction false} LocateAt(cs: seq<nat>, i: nat, j: nat)
    requires IsText(cs) && i <= j <= |cs|
    ensures At(cs, i) <= At(cs, j) <= |Text(cs)|
    ensures Locate(Text(cs), At(cs, i), At(cs, j)) == Spans.New(LineNo(cs, i), i - LineIndex(cs, i), j - i)
  {
    hide Text, NewlinesOf, CoordOf, Chars;
    CoordAt(cs, i);
    CharsBetween(cs, LineIndex(cs, i), i);
    CharsBetween(cs, i, j);
  }

  // Every line starts at a character.
  lemma {:induction false} LineStartsAt(cs: seq<nat>, k: nat, line: nat) returns (q: nat)
    requires IsText(cs) && k <= |cs| && line <= LineNo(cs, k)
    ensures q <= LineIndex(cs, k) <= |cs|
    ensures line == LineNo(cs, k) ==> q == LineIndex(cs, k)
    ensures line < LineNo(cs, k) ==> q < LineIndex(cs, k)
    ensures LineStart(Text(cs), NewlinesOf(Text(cs)), line) == At(cs, q)
    decreases k
  {
    hide NewlinesOf, Text, LineStart;
    if line == LineNo(cs, k) {
      q := LineIndex(cs, k);
      LineStartOwn(cs, k);
    } else {
      q := LineStartsAt(cs, k - 1, line);
      LineIndexGrows(cs, k);
    }
  }

  lemma LineIndexGrows(cs: seq<nat>, k: nat)
    requires 0 < k <= |cs|
    ensures LineIndex(cs, k - 1) <= LineIndex(cs, k)
    ensures LineNo(cs, k - 1) < LineNo(cs, k) ==> LineIndex(cs, k - 1) < LineIndex(cs, k)
  {
  }

  lemma {:induction false} LineStartOwn(cs: seq<nat>, k: nat)
    requires IsText(cs) && k <= |cs|
    ensures LineStart(Text(cs), NewlinesOf(Text(cs)), LineNo(cs, k)) == At(cs, LineIndex(cs, k))
  {
    CoordsAgree(cs, k);
    TextPrefix(cs, k);
    PartitionsPrefix(Text(cs), At(cs, k));
    var newlines := NewlinesOf(Text(cs));
    var n := PartitionPoint(newlines, At(cs, k));
    if n > 0 {
      assert newlines[n - 1] == newlines[..n][n - 1];
    }
  }

  /** Locating a range of characters and looking the location up gives the range back if
      and only if its line, column and length fit a packed span. */
  lemma {:induction false} LocateRoundTrip(cs: seq<nat>, i: nat, j: nat)
    requires IsText(cs) && i <= j <= |cs|
    ensures ByteRange(Text(cs), Locate(Text(cs), At(cs, i), At(cs, j))) == Range(At(cs, i), At(cs, j))
            <==> Spans.Fits(LineNo(cs, i), i - LineIndex(cs, i), j - i)
  {
    hide Text, At, NewlinesOf, Locate, LineStart, Advance, LineNo, LineIndex;
    LocateAt(cs, i, j);
    var line, column, len := LineNo(cs, i), i - LineIndex(cs, i), j - i;
    var line', column', len' :=
      Spans.Field(line, Spans.MAX_LINE), Spans.Field(column, Spans.MAX_COLUMN), Spans.Field(len, Spans.MAX_LEN);
    Spans.PackRoundTrip(line, column, len, 0);
    var q := LineStartsAt(cs, i, line');
    AdvanceAt(cs, q, column');
    var begin := Min(q + column', |cs|);
    AdvanceAt(cs, begin, len');
    AtInjective(cs, begin, i);
    AtInjective(cs, Min(begin + len', |cs|), j);
  }

  /** The end of a location that fits is the line and the column, in characters, of the
      character the range ends before. */
  lemma {:induction false} EndRoundTrip(cs: seq<nat>, i: nat, j: nat)
    requires IsText(cs) && i <= j <= |cs|
    requires Spans.Fits(LineNo(cs, i), i - LineIndex(cs, i), j - i)
    ensures EndOf(Text(cs), Locate(Text(cs), At(cs, i), At(cs, j))) == Coord(LineNo(cs, j), j - LineIndex(cs, j))
  {
    hide Text, At, NewlinesOf, Locate, CoordOf, ByteRange, Chars, LineNo, LineIndex;
    LocateRoundTrip(cs, i, j);
    CoordAt(cs, j);
    CharsBetween(cs, LineIndex(cs, j), j);
  }

  // ----- the file -----

  class File {
    const content: seq<byte>
    const newlines: seq<nat>

    constructor (content: seq<byte>)
      ensures this.content == content && newlines == NewlinesOf(content)
    {
      this.content := content;
      var found: seq<nat> := [];
      for cur := 0 to |content|
        invariant found == NewlinesOf(content[..cur])
      {
        assert content[..cur + 1][..cur] == content[..cur];
        if content[cur] == 10 {
          found := found + [cur];
        }
      }
      assert content[..|content|] == content;
      this.newlines := found;
    }
  }
}
