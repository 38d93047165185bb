/** The delta-coded source map of a function (dolang-bytecode/src/file.rs,
    `encode_sourcemap`, `spans` and the map checks of `verify_funcdebugtab`). */
module SourceMaps {

  import opened Results
  import opened Spans

  const FUNC_SIZE: nat := 256 * 1024
  const SOURCE_MAP_ENTRIES: nat := FUNC_SIZE
  const OFFSET_LIMIT: nat := 0x1_0000_0000_0000_0000
  const I32_LIMIT: int := 0x8000_0000

  /** From a bytecode offset on, the source is at a span. */
  datatype Mark = Mark(offset: nat, span: nat)

  datatype Entry = Entry(offsetDelta: nat, lineDelta: int, column: int, len: nat)

  datatype Fault = OffsetFault | LineFault | ColumnFault | LenFault

  // ----- encoding -----

  /** Offsets increase, from past `last` on. */
  ghost predicate Increasing(last: Option<Mark>, marks: seq<Mark>) {
    && (forall i :: 0 <= i < |marks| ==> marks[i].offset < OFFSET_LIMIT && marks[i].span < SPAN_LIMIT)
    && (last.Some? ==> last.value.span < SPAN_LIMIT && last.value.offset < OFFSET_LIMIT)
    && (last.Some? && marks != [] ==> last.value.offset < marks[0].offset)
    && (forall i, j :: 0 <= i < j < |marks| ==> marks[i].offset < marks[j].offset)
  }

  // Offsets increase, so what lies between two of them is not negative.
  function Gap(prior: nat, offset: nat): nat {
    if prior < offset then offset - prior - 1 else 0
  }

  function EntryFor(last: Option<Mark>, mark: Mark): Entry {
    var line, column := Line(mark.span), Column(mark.span);
    var priorLine := if last.Some? then Line(last.value.span) else 0;
    var priorColumn := if last.Some? then Column(last.value.span) else 0;
    Entry(if last.Some? then Gap(last.value.offset, mark.offset) else 0,
          line - priorLine,
          if line == priorLine then column - priorColumn else column,
          Len(mark.span))
  }

  /** What is kept of a mark that starts an entry: of the first one, offset 0. */
  function KeptAs(last: Option<Mark>, mark: Mark): Mark {
    Mark(if last.Some? then mark.offset else 0, mark.span)
  }

  predicate Repeats(last: Option<Mark>, mark: Mark) {
    last.Some? && last.value.span == mark.span
  }

  function Encode(last: Option<Mark>, marks: seq<Mark>): seq<Entry>
    decreases |marks|
  {
    if marks == [] then []
    else if Repeats(last, marks[0]) then Encode(last, marks[1..])
    else [EntryFor(last, marks[0])] + Encode(Some(KeptAs(last, marks[0])), marks[1..])
  }

  /** The marks a map records: where the span changes. */
  function Kept(last: Option<Mark>, marks: seq<Mark>): seq<Mark>
    decreases |marks|
  {
    if marks == [] then []
    else if Repeats(last, marks[0]) then Kept(last, marks[1..])
    else [KeptAs(last, marks[0])] + Kept(Some(KeptAs(last, marks[0])), marks[1..])
  }

  lemma IncreasingRest(last: Option<Mark>, marks: seq<Mark>)
    requires Increasing(last, marks) && marks != []
    ensures Increasing(last, marks[1..]) && Increasing(Some(KeptAs(last, marks[0])), marks[1..])
  {
    var rest := marks[1..];
    assert forall i :: 0 <= i < |rest| ==> rest[i] == marks[i + 1];
    if rest != [] {
      assert marks[0].offset < marks[1].offset;
    }
  }

  // ----- decoding -----

  datatype Place = Place(offset: nat, line: nat, column: nat)

  function DecodeEntry(state: Option<Place>, e: Entry): Result<Place, Fault> {
    var offset := if state.Some? then state.value.offset + e.offsetDelta + 1 else e.offsetDelta;
    var line := (if state.Some? then state.value.line else 0) + e.lineDelta;
    var column := (if e.lineDelta == 0 && state.Some? then state.value.column else 0) + e.column;
    if state.Some? && offset >= OFFSET_LIMIT then Err(OffsetFault)
    else if !(0 <= line <= MAX_LINE) then Err(LineFault)
    else if !(0 <= column <= MAX_COLUMN) then Err(ColumnFault)
    else if e.len > MAX_LEN then Err(LenFault)
    else Ok(Place(offset, line, column))
  }

  /** The marks a map yields, up to the first entry that is out of range. */
  datatype Decoded = Decoded(marks: seq<Mark>, fault: Option<Fault>)

  function Decode(state: Option<Place>, entries: seq<Entry>): Decoded
    decreases |entries|
  {
    if entries == [] then Decoded([], None)
    else
      match DecodeEntry(state, entries[0])
      case Err(fault) => Decoded([], Some(fault))
      case Ok(place) =>
        var rest := Decode(Some(place), entries[1..]);
        Decoded([Mark(place.offset, New(place.line, place.column, entries[0].len))] + rest.marks, rest.fault)
  }

  function PlaceOf(last: Option<Mark>): Option<Place> {
    if last.Some? then Some(Place(last.value.offset, Line(last.value.span), Column(last.value.span))) else None
  }

  lemma EntryRoundTrip(last: Option<Mark>, mark: Mark)
    requires Increasing(last, [mark])
    ensures var e := EntryFor(last, mark);
            && DecodeEntry(PlaceOf(last), e) == Ok(PlaceOf(Some(KeptAs(last, mark))).value)
            && New(Line(mark.span), Column(mark.span), e.len) == mark.span
            && -I32_LIMIT <= e.lineDelta < I32_LIMIT && -I32_LIMIT <= e.column < I32_LIMIT
  {
    assert [mark][0] == mark;
    PackRoundTrip(0, 0, 0, mark.span);
    if last.Some? {
      PackRoundTrip(0, 0, 0, last.value.span);
    }
  }

  /** Decoding an encoded map gives the marks where the span changes, without a fault,
      and no delta overflows its field. */
  lemma {:induction false} MapRoundTrip(last: Option<Mark>, marks: seq<Mark>)
    requires Increasing(last, marks)
    ensures Decode(PlaceOf(last), Encode(last, marks)) == Decoded(Kept(last, marks), None)
    ensures forall e :: e in Encode(last, marks) ==>
              -I32_LIMIT <= e.lineDelta < I32_LIMIT && -I32_LIMIT <= e.column < I32_LIMIT
    decreases |marks|
  {
    hide DecodeEntry, EntryFor, Line, Column, New;
    if marks != [] {
      IncreasingRest(last, marks);
      if Repeats(last, marks[0]) {
        MapRoundTrip(last, marks[1..]);
      } else {
        var kept := KeptAs(last, marks[0]);
        EntryRoundTrip(last, marks[0]);
        MapRoundTrip(Some(kept), marks[1..]);
        var entries := Encode(last, marks);
        assert entries[1..] == Encode(Some(kept), marks[1..]);
      }
    }
  }

  // ----- what the deltas are relative to -----

  /** The mark of code moved down by some lines. */
  function Moved(mark: Mark, lines: nat): Mark {
    Mark(mark.offset, New(Line(mark.span) + lines, Column(mark.span), Len(mark.span)))
  }

  function AllMoved(marks: seq<Mark>, lines: nat): (r: seq<Mark>)
    ensures |r| == |marks| && forall i :: 0 <= i < |r| ==> r[i] == Moved(marks[i], lines)
  {
    seq(|marks|, i requires 0 <= i < |marks| => Moved(marks[i], lines))
  }

  ghost predicate CanMove(mark: Mark, lines: nat) {
    mark.span < SPAN_LIMIT && Line(mark.span) + lines <= MAX_LINE
  }

  /** Once a first mark is set, code moved down by some lines has the same entries: lines are
      relative. */
  lemma {:induction false} MovedEntries(last: Mark, marks: seq<Mark>, lines: nat)
    requires CanMove(last, lines) && forall i :: 0 <= i < |marks| ==> CanMove(marks[i], lines)
    ensures Encode(Some(Moved(last, lines)), AllMoved(marks, lines)) == Encode(Some(last), marks)
    decreases |marks|
  {
    hide New, Line, Column, Len;
    if marks != [] {
      MovedSpan(last, lines);
      MovedSpan(marks[0], lines);
      assert AllMoved(marks, lines)[1..] == AllMoved(marks[1..], lines);
      MovedRepeats(last, marks[0], lines);
      MovedEntries(if Repeats(Some(last), marks[0]) then last else marks[0], marks[1..], lines);
    }
  }

  lemma MovedSpan(mark: Mark, lines: nat)
    requires CanMove(mark, lines)
    ensures var moved := Moved(mark, lines).span;
            Line(moved) == Line(mark.span) + lines && Column(moved) == Column(mark.span) && Len(moved) == Len(mark.span)
  {
    PackRoundTrip(Line(mark.span) + lines, Column(mark.span), Len(mark.span), mark.span);
  }

  lemma MovedRepeats(a: Mark, b: Mark, lines: nat)
    requires CanMove(a, lines) && CanMove(b, lines)
    ensures Repeats(Some(Moved(a, lines)), Moved(b, lines)) <==> Repeats(Some(a), b)
  {
    MovedSpan(a, lines);
    MovedSpan(b, lines);
    PackRoundTrip(0, 0, 0, a.span);
    PackRoundTrip(0, 0, 0, b.span);
  }

  /** A map in full: the first entry stands at offset 0, offsets count from just past the last
      entry, a column counts from the last one on the same line only, and a span that does not
      change has no entry. */
  lemma MapSample()
    ensures Encode(None, [Mark(5, New(3, 4, 5)), Mark(7, New(3, 9, 1)), Mark(12, New(5, 2, 1)), Mark(13, New(5, 2, 1))])
            == [Entry(0, 3, 4, 5), Entry(6, 0, 5, 1), Entry(4, 2, 2, 1)]
  {
    var a, b, c, d := Mark(5, New(3, 4, 5)), Mark(7, New(3, 9, 1)), Mark(12, New(5, 2, 1)), Mark(13, New(5, 2, 1));
    assert Encode(Some(c), [d]) == [] by {
      assert [d][1..] == [];
    }
    assert [c, d][1..] == [d] && [b, c, d][1..] == [c, d] && [a, b, c, d][1..] == [b, c, d];
    assert Encode(Some(b), [c, d]) == [Entry(4, 2, 2, 1)] + Encode(Some(c), [d]);
    assert Encode(Some(Mark(0, a.span)), [b, c, d]) == [Entry(6, 0, 5, 1)] + Encode(Some(b), [c, d]);
  }

  // ----- lookup -----

  /** The span of the latest mark at or before an offset. */
  function Lookup(marks: seq<Mark>, offset: nat): Option<nat> {
    if marks == [] then None
    else if marks[|marks| - 1].offset <= offset then Some(marks[|marks| - 1].span)
    else Lookup(marks[..|marks| - 1], offset)
  }

  lemma {:induction false} LookupIs(marks: seq<Mark>, k: nat, offset: nat)
    requires k <= |marks| && forall i :: k <= i < |marks| ==> marks[i].offset > offset
    requires k > 0 ==> marks[k - 1].offset <= offset
    ensures Lookup(marks, offset) == if k == 0 then None else Some(marks[k - 1].span)
  {
    if k < |marks| {
      LookupIs(marks[..|marks| - 1], k, offset);
    }
  }

  /** Finds the mark at an offset, or where one would be inserted. */
  method BinarySearch(marks: seq<Mark>, offset: nat) returns (found: bool, index: nat)
    requires Increasing(None, marks)
    ensures found ==> index < |marks| && marks[index].offset == offset
    ensures !found ==>
              && index <= |marks| && (forall i :: 0 <= i < index ==> marks[i].offset < offset)
              && forall i :: index <= i < |marks| ==> marks[i].offset > offset
  {
    var low, high := 0, |marks|;
    while low < high
      invariant low <= high <= |marks|
      invariant forall i :: 0 <= i < low ==> marks[i].offset < offset
      invariant forall i :: high <= i < |marks| ==> marks[i].offset > offset
    {
      var mid := low + (high - low) / 2;
      if marks[mid].offset == offset {
        return true, mid;
      } else if marks[mid].offset < offset {
        low := mid + 1;
      } else {
        high := mid;
      }
    }
    return false, low;
  }

  /** The span of the mark at an offset, or else of the one before where it would be
      inserted: there is none only under the first mark. */
  method Locate(marks: seq<Mark>, offset: nat) returns (span: Option<nat>)
    requires Increasing(None, marks)
    ensures span == Lookup(marks, offset)
    ensures span == None <==> marks == [] || offset < marks[0].offset
  {
    var found, index := BinarySearch(marks, offset);
    LookupIs(marks, if found then index + 1 else index, offset);
    if found {
      return Some(marks[index].span);
    } else if index == 0 {
      return None;
    } else {
      return Some(marks[index - 1].span);
    }
  }

  // The mark in force at an offset, where `last` is in force before any of `marks`.
  lemma {:induction false} KeptIncrease(last: Option<Mark>, marks: seq<Mark>)
    requires Increasing(last, marks)
    ensures |Kept(last, marks)| <= |marks|
    ensures forall i :: 0 <= i < |Kept(last, marks)| ==>
              && (last.Some? ==> last.value.offset < Kept(last, marks)[i].offset)
              && (i > 0 || last.Some? ==> exists j :: 0 <= j < |marks| && Kept(last, marks)[i] == marks[j])
    ensures last.None? && marks != [] ==> Kept(last, marks) != [] && Kept(last, marks)[0].offset == 0
    decreases |marks|
  {
    if marks != [] {
      IncreasingRest(last, marks);
      if Repeats(last, marks[0]) {
        KeptIncrease(last, marks[1..]);
        assert forall j :: 0 <= j < |marks[1..]| ==> marks[1..][j] == marks[j + 1];
      } else {
        var kept := Kept(Some(KeptAs(last, marks[0])), marks[1..]);
        KeptIncrease(Some(KeptAs(last, marks[0])), marks[1..]);
        assert forall j :: 0 <= j < |marks[1..]| ==> marks[1..][j] == marks[j + 1];
        forall i | 0 <= i < |Kept(last, marks)|
          ensures last.Some? ==> last.value.offset < Kept(last, marks)[i].offset
          ensures i > 0 || last.Some? ==> exists j :: 0 <= j < |marks| && Kept(last, marks)[i] == marks[j]
        {
          if i > 0 {
            assert Kept(last, marks)[i] == kept[i - 1];
          } else if last.Some? {
            assert Kept(last, marks)[0] == marks[0];
          }
        }
      }
    }
  }

  lemma {:induction false} LookupAppend(a: seq<Mark>, b: seq<Mark>, offset: nat)
    ensures Lookup(a + b, offset) == if Lookup(b, offset).Some? then Lookup(b, offset) else Lookup(a, offset)
    decreases |b|
  {
    if b != [] {
      var n := |a + b| - 1;
      assert (a + b)[..n] == a + b[..|b| - 1] && (a + b)[n] == b[|b| - 1];
      LookupAppend(a, b[..|b| - 1], offset);
    } else {
      assert a + b == a;
    }
  }

  lemma {:induction false} LookupMisses(marks: seq<Mark>, offset: nat)
    requires forall i :: 0 <= i < |marks| ==> marks[i].offset > offset
    ensures Lookup(marks, offset) == None
  {
    if marks != [] {
      LookupMisses(marks[..|marks| - 1], offset);
    }
  }

  /** Looking up an instruction's offset in the kept marks gives its own span. */
  lemma {:induction false} LookupFinds(last: Option<Mark>, marks: seq<Mark>, i: nat)
    requires Increasing(last, marks) && i < |marks|
    ensures var before := if last.Some? then [last.value] else [];
            Lookup(before + Kept(last, marks), marks[i].offset) == Some(marks[i].span)
    decreases |marks|
  {
    var before := if last.Some? then [last.value] else [];
    var rest := marks[1..];
    IncreasingRest(last, marks);
    if Repeats(last, marks[0]) {
      if i > 0 {
        LookupFinds(last, rest, i - 1);
      } else {
        KeptIncrease(last, rest);
        LaterMarks(last, marks);
        LookupAppend(before, Kept(last, rest), marks[0].offset);
        LookupMisses(Kept(last, rest), marks[0].offset);
        assert before[..0] == [];
      }
    } else {
      var kept := KeptAs(last, marks[0]);
      var tail := Kept(Some(kept), rest);
      assert before + Kept(last, marks) == before + ([kept] + tail);
      LookupAppend(before, [kept] + tail, marks[i].offset);
      if i > 0 {
        LookupFinds(Some(kept), rest, i - 1);
      } else {
        LaterMarks(Some(kept), marks);
        LookupAppend([kept], tail, marks[0].offset);
        LookupMisses(tail, marks[0].offset);
        assert [kept][..0] == [];
      }
    }
  }

  // Marks kept of what comes after the first lie after it.
  lemma {:induction false} LaterMarks(last: Option<Mark>, marks: seq<Mark>)
    requires marks != [] && last.Some? && Increasing(None, marks) && Increasing(last, marks[1..])
    ensures forall j :: 0 <= j < |Kept(last, marks[1..])| ==> Kept(last, marks[1..])[j].offset > marks[0].offset
  {
    var rest := marks[1..];
    KeptIncrease(last, rest);
    forall j | 0 <= j < |Kept(last, rest)|
      ensures Kept(last, rest)[j].offset > marks[0].offset
    {
      var m :| 0 <= m < |rest| && Kept(last, rest)[j] == rest[m];
      assert rest[m] == marks[m + 1];
    }
  }

  // ----- the verifier's check -----

  /** What the file verifier asks of a map for a function of `size` bytes. */
  ghost predicate MapOk(entries: seq<Entry>, size: nat) {
    && 0 < |entries| <= SOURCE_MAP_ENTRIES
    && Decode(None, entries).fault == None
    && MarksOk(Decode(None, entries).marks, size)
  }

  ghost predicate MarksOk(marks: seq<Mark>, size: nat) {
    && |marks| > 0 && marks[0].offset == 0
    && (forall i :: 0 <= i < |marks| ==> marks[i].offset < size)
    && (forall i :: 0 <= i < |marks| - 1 ==> marks[i].span != marks[i + 1].span)
  }

  lemma {:induction false} KeptChanges(last: Option<Mark>, marks: seq<Mark>)
    ensures last.Some? && Kept(last, marks) != [] ==> Kept(last, marks)[0].span != last.value.span
    ensures forall i :: 0 <= i < |Kept(last, marks)| - 1 ==> Kept(last, marks)[i].span != Kept(last, marks)[i + 1].span
    decreases |marks|
  {
    if marks != [] {
      if Repeats(last, marks[0]) {
        KeptChanges(last, marks[1..]);
      } else {
        KeptChanges(Some(KeptAs(last, marks[0])), marks[1..]);
      }
    }
  }

  lemma {:induction false} EncodeLength(last: Option<Mark>, marks: seq<Mark>)
    ensures |Encode(last, marks)| == |Kept(last, marks)| <= |marks|
    decreases |marks|
  {
    if marks != [] {
      if Repeats(last, marks[0]) {
        EncodeLength(last, marks[1..]);
      } else {
        EncodeLength(Some(KeptAs(last, marks[0])), marks[1..]);
      }
    }
  }

  lemma {:induction false} OffsetsLeaveRoom(marks: seq<Mark>, size: nat)
    requires Increasing(None, marks)
    requires forall i :: 0 <= i < |marks| ==> marks[i].offset < size
    ensures |marks| <= size
  {
    if marks != [] {
      var last := marks[|marks| - 1].offset;
      OffsetsLeaveRoom(marks[..|marks| - 1], last);
    }
  }

  /** The map of any instructions of a function of permitted size passes the check. */
  lemma {:induction false} EncodedPasses(marks: seq<Mark>, size: nat)
    requires Increasing(None, marks) && marks != [] && size <= FUNC_SIZE
    requires forall i :: 0 <= i < |marks| ==> marks[i].offset < size
    ensures MapOk(Encode(None, marks), size)
  {
    MapRoundTrip(None, marks);
    EncodeLength(None, marks);
    OffsetsLeaveRoom(marks, size);
    KeptIncrease(None, marks);
    KeptChanges(None, marks);
    forall i | 0 <= i < |Kept(None, marks)|
      ensures Kept(None, marks)[i].offset < size
    {
    }
  }

  // ----- every map that passes is an encoding -----

  lemma DecodedEntry(state: Option<Mark>, e: Entry)
    requires state.Some? ==> state.value.span < SPAN_LIMIT
    requires DecodeEntry(PlaceOf(state), e).Ok?
    ensures var place := DecodeEntry(PlaceOf(state), e).value;
            var mark := Mark(place.offset, New(place.line, place.column, e.len));
            && mark.span < SPAN_LIMIT && PlaceOf(Some(mark)) == Some(place)
            && (state.Some? ==> state.value.offset < mark.offset < OFFSET_LIMIT && EntryFor(state, mark) == e)
            && (state.None? ==> place.offset == e.offsetDelta && EntryFor(state, mark) == e.(offsetDelta := 0))
  {
    var place := DecodeEntry(PlaceOf(state), e).value;
    PackRoundTrip(place.line, place.column, e.len, 0);
    if state.Some? {
      PackRoundTrip(0, 0, 0, state.value.span);
    }
  }

  // One entry decoded: its mark lies past the last one, and decoding goes on from it.
  lemma {:induction false} DecodedNext(state: Mark, entries: seq<Entry>)
    requires state.span < SPAN_LIMIT && entries != [] && Decode(PlaceOf(Some(state)), entries).fault == None
    ensures var marks := Decode(PlaceOf(Some(state)), entries).marks;
            && marks != [] && state.offset < marks[0].offset < OFFSET_LIMIT && marks[0].span < SPAN_LIMIT
            && EntryFor(Some(state), marks[0]) == entries[0]
            && Decode(PlaceOf(Some(marks[0])), entries[1..]) == Decoded(marks[1..], None)
  {
    hide DecodeEntry, EntryFor, Line, Column, New;
    DecodedEntry(Some(state), entries[0]);
  }

  lemma IncreasingOn(state: Mark, marks: seq<Mark>)
    requires marks != [] && Increasing(Some(marks[0]), marks[1..])
    requires state.span < SPAN_LIMIT && state.offset < marks[0].offset
    ensures Increasing(Some(state), marks)
  {
    var rest := marks[1..];
    assert forall i :: 0 < i < |marks| ==> marks[i] == rest[i - 1];
  }

  /** What a map that decodes without fault yields has increasing offsets. */
  lemma {:induction false} DecodedIncreases(state: Mark, entries: seq<Entry>)
    requires state.span < SPAN_LIMIT && state.offset < OFFSET_LIMIT
    requires Decode(PlaceOf(Some(state)), entries).fault == None
    ensures Increasing(Some(state), Decode(PlaceOf(Some(state)), entries).marks)
    decreases |entries|
  {
    if entries != [] {
      hide Decode, Increasing, EntryFor, PlaceOf;
      DecodedNext(state, entries);
      var marks := Decode(PlaceOf(Some(state)), entries).marks;
      DecodedIncreases(marks[0], entries[1..]);
      IncreasingOn(state, marks);
    }
  }

  /** No mark has the span of the one before. */
  ghost predicate Changing(state: Mark, marks: seq<Mark>) {
    && (marks != [] ==> marks[0].span != state.span)
    && forall i :: 0 <= i < |marks| - 1 ==> marks[i].span != marks[i + 1].span
  }

  /** If its spans change every time, encoding what such a map yields again gives the map. */
  lemma {:induction false} DecodedReencodes(state: Mark, entries: seq<Entry>)
    requires state.span < SPAN_LIMIT && Decode(PlaceOf(Some(state)), entries).fault == None
    requires Changing(state, Decode(PlaceOf(Some(state)), entries).marks)
    ensures Encode(Some(state), Decode(PlaceOf(Some(state)), entries).marks) == entries
    decreases |entries|
  {
    if entries != [] {
      hide Decode, EntryFor, PlaceOf;
      DecodedNext(state, entries);
      var marks := Decode(PlaceOf(Some(state)), entries).marks;
      var rest := marks[1..];
      assert forall i :: 0 <= i < |rest| ==> rest[i] == marks[i + 1];
      DecodedReencodes(marks[0], entries[1..]);
      assert entries == [entries[0]] + entries[1..];
    }
  }

  lemma {:induction false} FirstMark(entries: seq<Entry>)
    requires entries != [] && DecodeEntry(None, entries[0]).Ok?
    ensures var decoded := Decode(None, entries);
            var place := DecodeEntry(None, entries[0]).value;
            && decoded.marks != [] && decoded.marks[0] == Mark(place.offset, New(place.line, place.column, entries[0].len))
            && Decode(Some(place), entries[1..]) == Decoded(decoded.marks[1..], decoded.fault)
  {
    hide DecodeEntry, New;
  }

  lemma {:induction false} EncodeFirst(marks: seq<Mark>, entries: seq<Entry>)
    requires marks != [] && entries != [] && marks[0].offset == 0
    requires EntryFor(None, marks[0]) == entries[0] && Encode(Some(marks[0]), marks[1..]) == entries[1..]
    ensures Encode(None, marks) == entries
  {
    hide EntryFor;
    assert KeptAs(None, marks[0]) == marks[0];
    assert entries == [entries[0]] + entries[1..];
  }

  lemma IncreasingFrom(marks: seq<Mark>)
    requires marks != [] && Increasing(Some(marks[0]), marks[1..])
    ensures Increasing(None, marks)
  {
    var rest := marks[1..];
    assert forall i :: 0 < i < |marks| ==> marks[i] == rest[i - 1];
  }

  /** A map that passes is the encoding of the marks it decodes to. */
  lemma {:induction false} PassingIsEncoded(entries: seq<Entry>, size: nat)
    requires MapOk(entries, size) && size < OFFSET_LIMIT
    ensures Increasing(None, Decode(None, entries).marks)
    ensures Encode(None, Decode(None, entries).marks) == entries
    ensures Kept(None, Decode(None, entries).marks) == Decode(None, entries).marks
  {
    var marks := Decode(None, entries).marks;
    FirstOk(entries);
    hide DecodeEntry, EntryFor, Line, Column, New, Kept, Encode, Decode, Increasing;
    FirstMark(entries);
    DecodedEntry(None, entries[0]);
    ChangesAfter(marks);
    DecodedIncreases(marks[0], entries[1..]);
    DecodedReencodes(marks[0], entries[1..]);
    EncodeFirst(marks, entries);
    IncreasingFrom(marks);
    MapRoundTrip(None, marks);
  }

  /** The entries are the map of instructions that lie inside `size` bytes. */
  ghost predicate Maps(entries: seq<Entry>, marks: seq<Mark>, size: nat) {
    && Increasing(None, marks) && marks != [] && Encode(None, marks) == entries
    && forall i :: 0 <= i < |marks| ==> marks[i].offset < size
  }

  /** The check passes exactly the maps of the instructions a function can have. */
  lemma {:induction false} PassesExactly(entries: seq<Entry>, size: nat)
    requires size <= FUNC_SIZE
    ensures MapOk(entries, size) <==> exists marks :: Maps(entries, marks, size)
  {
    hide Encode, Increasing, Decode;
    if MapOk(entries, size) {
      PassingIsEncoded(entries, size);
      var marks := Decode(None, entries).marks;
      forall i | 0 <= i < |marks|
        ensures marks[i].offset < size
      {
      }
      assert Maps(entries, marks, size);
    }
    if marks :| Maps(entries, marks, size) {
      EncodedPasses(marks, size);
    }
  }

  /** In a map that passes, every offset is located. */
  lemma {:induction false} PassedLocates(entries: seq<Entry>, size: nat, offset: nat)
    requires MapOk(entries, size) && size < OFFSET_LIMIT
    ensures Lookup(Decode(None, entries).marks, offset).Some?
  {
    hide Decode, Lookup;
    var marks := Decode(None, entries).marks;
    PassingIsEncoded(entries, size);
    AtOrUnder(marks, offset);
  }

  lemma {:induction false} AtOrUnder(marks: seq<Mark>, offset: nat)
    requires marks != [] && marks[0].offset <= offset
    ensures Lookup(marks, offset).Some?
  {
    if marks[|marks| - 1].offset > offset {
      AtOrUnder(marks[..|marks| - 1], offset);
    }
  }

  lemma {:induction false} FirstOk(entries: seq<Entry>)
    requires entries != [] && Decode(None, entries).fault == None
    ensures DecodeEntry(None, entries[0]).Ok?
  {
  }

  lemma ChangesAfter(marks: seq<Mark>)
    requires marks != [] && forall i :: 0 <= i < |marks| - 1 ==> marks[i].span != marks[i + 1].span
    ensures Changing(marks[0], marks[1..])
  {
    var rest := marks[1..];
    forall i | 0 <= i < |rest| - 1
      ensures rest[i].span != rest[i + 1].span
    {
      assert marks[i + 1].span != marks[(i + 1) + 1].span;
    }
  }

  // ----- the loops -----

  lemma {:induction false} EncodeAppends(last: Option<Mark>, marks: seq<Mark>, mark: Mark)
    ensures Encode(last, marks + [mark])
            == Encode(last, marks) + if Repeats(LastKept(last, marks), mark) then [] else [EntryFor(LastKept(last, marks), mark)]
    ensures LastKept(last, marks + [mark])
            == if Repeats(LastKept(last, marks), mark) then LastKept(last, marks)
               else Some(KeptAs(LastKept(last, marks), mark))
    decreases |marks|
  {
    hide EntryFor;
    var all := marks + [mark];
    if marks != [] {
      assert all[1..] == marks[1..] + [mark];
      EncodeAppends(if Repeats(last, marks[0]) then last else Some(KeptAs(last, marks[0])), marks[1..], mark);
    } else {
      assert all == [mark] && all[1..] == [];
    }
  }

  /** The mark that the last entry written stands for. */
  function LastKept(last: Option<Mark>, marks: seq<Mark>): Option<Mark>
    decreases |marks|
  {
    if marks == [] then last
    else if Repeats(last, marks[0]) then LastKept(last, marks[1..])
    else LastKept(Some(KeptAs(last, marks[0])), marks[1..])
  }

  /** Encodes a source map from each instruction's offset and span. */
  method EncodeSourcemap(marks: seq<Mark>) returns (out: seq<Entry>)
    ensures out == Encode(None, marks)
  {
    hide EntryFor;
    out := [];
    var last: Option<Mark> := None;
    var k := 0;
    while k < |marks|
      invariant k <= |marks|
      invariant out == Encode(None, marks[..k]) && last == LastKept(None, marks[..k])
    {
      assert marks[..k + 1] == marks[..k] + [marks[k]];
      EncodeAppends(None, marks[..k], marks[k]);
      var mark := marks[k];
      k := k + 1;
      if last.Some? && last.value.span == mark.span {
        continue;
      }
      out := out + [EntryFor(last, mark)];
      last := Some(Mark(if last.Some? then mark.offset else 0, mark.span));
    }
    assert marks[..k] == marks;
  }

  /** Decodes a source map, up to the first entry that is out of range. */
  method DecodeSpans(entries: seq<Entry>) returns (decoded: Decoded)
    ensures decoded == Decode(None, entries)
  {
    hide DecodeEntry, New;
    var marks: seq<Mark> := [];
    var state: Option<Place> := None;
    var k := 0;
    while k < |entries|
      invariant k <= |entries|
      invariant Decode(None, entries)
                == Decoded(marks + Decode(state, entries[k..]).marks, Decode(state, entries[k..]).fault)
    {
      assert entries[k..][1..] == entries[k + 1..];
      match DecodeEntry(state, entries[k])
      case Err(fault) =>
        return Decoded(marks, Some(fault));
      case Ok(place) =>
        ghost var rest := Decode(Some(place), entries[k + 1..]).marks;
        var mark := Mark(place.offset, New(place.line, place.column, entries[k].len));
        assert marks + ([mark] + rest) == (marks + [mark]) + rest;
        marks := marks + [mark];
        state := Some(place);
        k := k + 1;
    }
    assert marks + [] == marks;
    return Decoded(marks, None);
  }

  /** Checks a source map against the size of its function. */
  method VerifyMap(entries: seq<Entry>, size: nat) returns (ok: bool)
    ensures ok <==> MapOk(entries, size)
  {
    if entries == [] || |entries| > SOURCE_MAP_ENTRIES {
      return false;
    }
    var decoded := DecodeSpans(entries);
    DecodedCount(None, entries);
    var last: Option<nat> := None;
    for j := 0 to |decoded.marks|
      invariant last == if j == 0 then None else Some(decoded.marks[j - 1].span)
      invariant j > 0 ==> decoded.marks[0].offset == 0
      invariant forall i :: 0 <= i < j ==> decoded.marks[i].offset < size
      invariant forall i :: 0 <= i < j - 1 ==> decoded.marks[i].span != decoded.marks[i + 1].span
    {
      var mark := decoded.marks[j];
      if (j == 0 && mark.offset != 0) || mark.offset >= size {
        return false;
      }
      if last == Some(mark.span) {
        assert decoded.marks[j - 1].span == decoded.marks[(j - 1) + 1].span;
        return false;
      }
      last := Some(mark.span);
    }
    ok := decoded.fault == None;
  }

  lemma {:induction false} DecodedCount(state: Option<Place>, entries: seq<Entry>)
    ensures Decode(state, entries).fault == None ==> |Decode(state, entries).marks| == |entries|
    decreases |entries|
  {
    hide DecodeEntry;
    if entries != [] && DecodeEntry(state, entries[0]).Ok? {
      DecodedCount(Some(DecodeEntry(state, entries[0]).value), entries[1..]);
    }
  }
}
