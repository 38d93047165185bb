/** Packed source spans (dolang-bytecode/src/span.rs): a start line and column and a
    length, in 24, 20 and 20 bits of a machine word. */
module Spans {

  const MAX_LINE: nat := 0xFF_FFFF
  const MAX_COLUMN: nat := 0xF_FFFF
  const MAX_LEN: nat := 0xF_FFFF
  const SPAN_LIMIT: nat := 0x1_0000_0000_0000_0000

  const LINE_UNIT: nat := 0x100_0000_0000
  const COLUMN_UNIT: nat := 0x10_0000

  function Field(value: nat, max: nat): nat {
    if value > max then max else value
  }

  // The fields' bits do not overlap, so shifting and joining them is a sum.
  function New(line: nat, column: nat, len: nat): nat {
    Field(line, MAX_LINE) * LINE_UNIT + Field(column, MAX_COLUMN) * COLUMN_UNIT + Field(len, MAX_LEN)
  }

  function Line(span: nat): nat {
    span / LINE_UNIT
  }

  function Column(span: nat): nat {
    (span / COLUMN_UNIT) % COLUMN_UNIT
  }

  function Len(span: nat): nat {
    span % COLUMN_UNIT
  }

  predicate Fits(line: nat, column: nat, len: nat) {
    line <= MAX_LINE && column <= MAX_COLUMN && len <= MAX_LEN
  }

  /** Every word is the packing of exactly one triple of fields in range, and packing
      clamps what is out of range. */
  lemma PackRoundTrip(line: nat, column: nat, len: nat, span: nat)
    ensures Line(New(line, column, len)) == Field(line, MAX_LINE)
    ensures Column(New(line, column, len)) == Field(column, MAX_COLUMN)
    ensures Len(New(line, column, len)) == Field(len, MAX_LEN)
    ensures New(line, column, len) < SPAN_LIMIT
    ensures span < SPAN_LIMIT ==>
              Fits(Line(span), Column(span), Len(span)) && New(Line(span), Column(span), Len(span)) == span
  {
    var l, c, n := Field(line, MAX_LINE), Field(column, MAX_COLUMN), Field(len, MAX_LEN);
    assert New(line, column, len) == (l * COLUMN_UNIT + c) * COLUMN_UNIT + n;
    assert New(line, column, len) / COLUMN_UNIT == l * COLUMN_UNIT + c;
  }

  /** Words compare as spans do: by line, then column, then length. */
  lemma PackedOrder(s: nat, t: nat)
    requires s < SPAN_LIMIT && t < SPAN_LIMIT
    ensures s < t <==>
              || Line(s) < Line(t)
              || (Line(s) == Line(t) && Column(s) < Column(t))
              || (Line(s) == Line(t) && Column(s) == Column(t) && Len(s) < Len(t))
  {
    PackRoundTrip(0, 0, 0, s);
    PackRoundTrip(0, 0, 0, t);
  }
}
