/**
  The chunks of TaskTools.inspect (runtime/mcp/tasks.ts): stored text fields cut into responses of bounded length,
  and their reassembly by a reader that follows the cursors.
 */
module PayloadChunks {
  import opened Options

  const MAX_CHARACTERS := 2048
  const FIRST_ERROR_PAGE := 1024

  /** The fields of a section, in order; None where the task has no such field. */
  type Fields = seq<Option<string>>

  datatype Position = Position(field: nat, offset: nat)

  /** `more` says that the field goes on behind this chunk. */
  datatype Chunk = Chunk(field: nat, text: Option<string>, offset: nat, more: bool)

  function Length(fields: Fields, field: nat): nat
    requires field < |fields|
  {
    |fields[field].Or("")|
  }

  /** Positions that cursors hold: at a field's start, or strictly inside an available field. */
  predicate IsPosition(fields: Fields, p: Position) {
    && p.field <= |fields|
    && (p.offset > 0 ==> p.field < |fields| && fields[p.field].Some? && p.offset < Length(fields, p.field))
  }

  function Least(a: nat, b: nat): nat { if a < b then a else b }

  function Characters(chunks: seq<Chunk>): nat {
    if chunks == [] then 0 else Characters(chunks[..|chunks| - 1]) + |chunks[|chunks| - 1].text.Or("")|
  }

  /** Fields and characters still to be delivered. */
  function Remaining(fields: Fields, field: nat): nat
    requires field <= |fields|
    decreases |fields| - field
  {
    if field == |fields| then 0 else 1 + Length(fields, field) + Remaining(fields, field + 1)
  }

  function Left(fields: Fields, p: Position): int
    requires IsPosition(fields, p)
  {
    Remaining(fields, p.field) - p.offset
  }

  lemma {:induction false} LeftIsNat(fields: Fields, p: Position)
    requires IsPosition(fields, p)
    ensures Left(fields, p) >= 0
    ensures Left(fields, p) == 0 <==> p.field == |fields|
  {
  }

  // ---- What a reader has put together ----

  /** Everything before a position. */
  function Before(fields: Fields, p: Position): Fields
    requires IsPosition(fields, p)
  {
    if p.offset == 0 then fields[..p.field] else fields[..p.field] + [Some(fields[p.field].value[..p.offset])]
  }

  /** A chunk starts a new field, or continues the last one where it ended; None for a chunk that fits nowhere. */
  function Append(got: Fields, c: Chunk): Option<Fields> {
    if c.field == |got| && c.offset == 0 then Some(got + [c.text])
    else if c.field + 1 == |got| && got[c.field].Some? && c.text.Some? && c.offset == |got[c.field].value| then
      Some(got[..c.field] + [Some(got[c.field].value + c.text.value)])
    else None
  }

  function Assemble(got: Fields, chunks: seq<Chunk>): Option<Fields> {
    if chunks == [] then Some(got)
    else
      match Assemble(got, chunks[..|chunks| - 1])
      case None => None
      case Some(fields) => Append(fields, chunks[|chunks| - 1])
  }

  /** Where a chunk of a field leaves the cursor. */
  function Advance(fields: Fields, p: Position, amount: nat): Position
    requires p.field < |fields|
  {
    if p.offset + amount >= Length(fields, p.field)
      then Position(p.field + 1, 0) else Position(p.field, p.offset + amount)
  }

  lemma {:induction false} ChunkContinues(fields: Fields, p: Position, amount: nat)
    requires IsPosition(fields, p) && p.field < |fields| && fields[p.field].Some? &&
      p.offset + amount <= Length(fields, p.field)
    requires amount > 0 || Length(fields, p.field) == 0
    ensures IsPosition(fields, Advance(fields, p, amount))
    ensures Append(Before(fields, p), Chunk(p.field, Some(fields[p.field].value[p.offset..p.offset + amount]), p.offset,
              p.offset + amount < Length(fields, p.field))) == Some(Before(fields, Advance(fields, p, amount)))
    ensures Left(fields, Advance(fields, p, amount)) < Left(fields, p)
  {
    var text := fields[p.field].value;
    assert text[..p.offset] + text[p.offset..p.offset + amount] == text[..p.offset + amount];
    if p.offset + amount == |text| {
      assert text[..p.offset + amount] == text;
    }
    assert Before(fields, p)[..p.field] == fields[..p.field];
    assert fields[..p.field + 1] == fields[..p.field] + [fields[p.field]];
    if p.offset == 0 { assert text[0..amount] == text[..amount]; }
  }

  lemma {:induction false} MissingContinues(fields: Fields, p: Position)
    requires IsPosition(fields, p) && p.field < |fields| && fields[p.field].None?
    ensures Append(Before(fields, p), Chunk(p.field, None, 0, false)) == Some(Before(fields, Position(p.field + 1, 0)))
    ensures Left(fields, Position(p.field + 1, 0)) < Left(fields, p)
  {
    assert fields[..p.field + 1] == fields[..p.field] + [fields[p.field]];
  }

  // ---- One response ----

  /** A chunk is a piece of its field, and says whether the field goes on behind it; a missing field has none. */
  predicate IsPiece(fields: Fields, c: Chunk) {
    c.field < |fields| &&
    match c.text
    case None => fields[c.field].None? && c.offset == 0 && !c.more
    case Some(text) =>
      && fields[c.field].Some? && c.offset + |text| <= Length(fields, c.field)
      && text == fields[c.field].value[c.offset..c.offset + |text|]
      && (c.more <==> c.offset + |text| < Length(fields, c.field))
  }

  ghost predicate ArePieces(fields: Fields, chunks: seq<Chunk>) {
    forall c <- chunks :: IsPiece(fields, c)
  }

  /** The chunk of one turn, with room for so many characters, and where it leaves the cursor. */
  function TurnChunk(fields: Fields, p: Position, room: nat): Chunk
    requires IsPosition(fields, p) && p.field < |fields|
  {
    if fields[p.field].None? then Chunk(p.field, None, 0, false)
    else
      var length := Length(fields, p.field);
      var amount := Least(room, length - p.offset);
      Chunk(p.field, Some(fields[p.field].value[p.offset..p.offset + amount]), p.offset, p.offset + amount < length)
  }

  function TurnEnd(fields: Fields, p: Position, room: nat): Position
    requires IsPosition(fields, p) && p.field < |fields|
  {
    if fields[p.field].None? then Position(p.field + 1, 0)
    else Advance(fields, p, Least(room, Length(fields, p.field) - p.offset))
  }

  lemma {:induction false} TurnContinues(fields: Fields, p: Position, room: nat)
    requires IsPosition(fields, p) && p.field < |fields| && room > 0
    ensures var c, next := TurnChunk(fields, p, room), TurnEnd(fields, p, room);
      && IsPosition(fields, next) && Append(Before(fields, p), c) == Some(Before(fields, next))
      && Left(fields, next) < Left(fields, p) && IsPiece(fields, c) && |c.text.Or("")| <= room
  {
    if fields[p.field].None? {
      MissingContinues(fields, p);
    } else {
      ChunkContinues(fields, p, Least(room, Length(fields, p.field) - p.offset));
    }
  }

  lemma {:induction false} AssembleSnoc(got: Fields, chunks: seq<Chunk>, c: Chunk)
    requires Assemble(got, chunks).Some?
    ensures Assemble(got, chunks + [c]) == Append(Assemble(got, chunks).value, c)
    ensures Characters(chunks + [c]) == Characters(chunks) + |c.text.Or("")|
  {
    assert (chunks + [c])[..|chunks|] == chunks;
  }

  /** The loop of inspect: chunks from a position on, at most `budget` characters together. */
  method NextChunks(fields: Fields, start: Position, budget: nat) returns (chunks: seq<Chunk>, next: Position)
    requires IsPosition(fields, start) && budget > 0
    ensures IsPosition(fields, next) && Characters(chunks) <= budget
    ensures Assemble(Before(fields, start), chunks) == Some(Before(fields, next))
    ensures start.field < |fields| ==> Left(fields, next) < Left(fields, start)
    ensures start.field == |fields| ==> chunks == [] && next == start
    ensures Characters(chunks) == budget || next.field == |fields|
    ensures ArePieces(fields, chunks)
  {
    chunks, next := [], start;
    var remaining: nat := budget;
    while next.field < |fields| && remaining > 0
      invariant IsPosition(fields, next) && Characters(chunks) + remaining == budget
      invariant Assemble(Before(fields, start), chunks) == Some(Before(fields, next))
      invariant Left(fields, next) <= Left(fields, start) - (if next == start then 0 else 1)
      invariant next == start ==> chunks == [] && remaining == budget
      invariant ArePieces(fields, chunks)
      decreases Left(fields, next)
    {
      LeftIsNat(fields, next);
      TurnContinues(fields, next, remaining);
      var chunk := TurnChunk(fields, next, remaining);
      AssembleSnoc(Before(fields, start), chunks, chunk);
      chunks := chunks + [chunk];
      next := TurnEnd(fields, next, remaining);
      remaining := remaining - |chunk.text.Or("")|;
    }
  }

  /** The next cursor; none when every field is delivered. */
  function CursorFor(fields: Fields, next: Position): Option<Position> {
    if next.field < |fields| then Some(next) else None
  }

  method InspectSection(
    fields: Fields, isError: bool, cursor: Option<Position>) returns (chunks: seq<Chunk>, next: Option<Position>)
    requires cursor.Some? ==> IsPosition(fields, cursor.value)
    ensures next.Some? ==> IsPosition(fields, next.value) && next.value.field < |fields|
    ensures Characters(chunks) <= if isError && cursor.None? then FIRST_ERROR_PAGE else MAX_CHARACTERS
    ensures Assemble(Before(fields, cursor.Or(Position(0, 0))), chunks) ==
      Some(if next.Some? then Before(fields, next.value) else fields)
    ensures next.Some? ==> Left(fields, next.value) < Left(fields, cursor.Or(Position(0, 0)))
    ensures ArePieces(fields, chunks)
  {
    var start := cursor.Or(Position(0, 0));
    var position;
    chunks, position := NextChunks(fields, start, if isError && cursor.None? then FIRST_ERROR_PAGE else MAX_CHARACTERS);
    next := CursorFor(fields, position);
    assert next.None? ==> Before(fields, position) == fields;
  }

  lemma {:induction false} AssembleConcat(got: Fields, a: seq<Chunk>, b: seq<Chunk>)
    ensures Assemble(got, a + b) == match Assemble(got, a) case None => None case Some(fields) => Assemble(fields, b)
  {
    if b == [] {
      assert a + b == a;
    } else {
      assert (a + b)[..|a + b| - 1] == a + b[..|b| - 1];
      AssembleConcat(got, a, b[..|b| - 1]);
    }
  }

  /** Following the cursors over an unchanged task puts every stored field together exactly. */
  method ReadAll(fields: Fields, isError: bool) returns (chunks: seq<Chunk>)
    ensures Assemble([], chunks) == Some(fields) && ArePieces(fields, chunks)
  {
    var next;
    chunks, next := InspectSection(fields, isError, None);
    while next.Some?
      invariant next.Some? ==> IsPosition(fields, next.value)
      invariant Assemble([], chunks) == Some(if next.Some? then Before(fields, next.value) else fields)
      invariant ArePieces(fields, chunks)
      decreases if next.Some? then 1 + Left(fields, next.value) else 0
    {
      LeftIsNat(fields, next.value);
      var more;
      more, next := InspectSection(fields, isError, next);
      if next.Some? { LeftIsNat(fields, next.value); }
      AssembleConcat([], chunks, more);
      chunks := chunks + more;
    }
  }
}
