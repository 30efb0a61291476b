/**
 What a receiver declares: destination tables compiled from a schema, the
 handler's answers, and the receiver's caps.
 */
module Schema {
  import opened Wire
  import opened Message

  datatype Kind =
    | KUnsigned | KSigned | KBoolean | KFloat32 | KFloat64
    | KString | KBytes
    | KArrayUnsigned | KArraySigned | KArrayBoolean | KArrayFloat32 | KArrayFloat64
    | KSequence

  predicate IsScalar(k: Kind) { k.KUnsigned? || k.KSigned? || k.KBoolean? || k.KFloat32? || k.KFloat64? }
  predicate IsObject(k: Kind) { k.KString? || k.KBytes? }
  predicate IsArray(k: Kind) { !IsScalar(k) && !IsObject(k) && !k.KSequence? }

  /** A slot of the `objects` list: untouched, a value the decoder built, or the caller's own buffer. */
  datatype Obj = Absent | Built(bytes: seq<byte>) | Buffer(bytes: seq<byte>)

  /** The wire type and the subtype (-1 for none) a row accepts. */
  function WireTag(k: Kind): (nat, int) {
    match k
    case KUnsigned => (UNSIGNED, -1)
    case KSigned => (SIGNED, -1)
    case KBoolean => (UNSIGNED, -1)
    case KFloat32 => (FIXLEN, FP32)
    case KFloat64 => (FIXLEN, FP64)
    case KString => (FIXLEN, STRING)
    case KBytes => (FIXLEN, BLOB)
    case KArrayUnsigned => (ARRAY_UNSIGNED, -1)
    case KArraySigned => (ARRAY_SIGNED, -1)
    case KArrayBoolean => (ARRAY_UNSIGNED, -1)
    case KArrayFloat32 => (ARRAY_FIXLEN, FP32)
    case KArrayFloat64 => (ARRAY_FIXLEN, FP64)
    case KSequence => (SEQUENCE_START, -1)
  }

  /** What a re-selected option starts from, as flat lists of slots and values. */
  datatype Reset = Reset(words: seq<(nat, word)>, objects: seq<(nat, Obj)>, into: seq<(nat, seq<byte>)>)

  const NO_RESET := Reset([], [], [])

  /** One row of a compiled table. */
  datatype Row = Row(
    kind: Kind,
    id: nat,
    at: nat,
    cap: nat,
    countAt: int,      // -1 for none
    child: nat,        // the table a sequence descends into
    lo: int,
    hi: int,
    bounded: bool,
    into: bool,
    which: int,        // slot the option's id goes to, -1 for none
    reset: Reset)
  {
    /** The bound the row declares on a count or length, -1 for none. */
    function Declared(): int {
      if IsArray(kind) || (IsObject(kind) && cap > 0) then cap else -1
    }
  }

  datatype Table = Table(rows: map<nat, Row>, closed: bool)

  predicate ResetOk(r: Reset, nwords: nat, nobjects: nat) {
    && (forall i | 0 <= i < |r.words| :: r.words[i].0 < nwords)
    && (forall i | 0 <= i < |r.objects| :: r.objects[i].0 < nobjects)
    && (forall i | 0 <= i < |r.into| :: r.into[i].0 < nobjects)
  }

  /** Every slot the row can write lies in the storage the caller sized. */
  predicate SlotsOk(row: Row, nwords: nat, nobjects: nat) {
    && row.id <= ID_MAX
    && row.countAt < nwords
    && row.which < nwords
    && (IsScalar(row.kind) ==> row.at < nwords)
    && (IsArray(row.kind) ==> row.at + row.cap <= nwords)
    && (IsObject(row.kind) ==> row.at < nobjects)
    && ResetOk(row.reset, nwords, nobjects)
  }

  predicate RowOk(row: Row, ntables: nat, nwords: nat, nobjects: nat) {
    SlotsOk(row, nwords, nobjects) && (row.kind.KSequence? ==> row.child < ntables)
  }

  predicate TablesOk(tables: seq<Table>, nwords: nat, nobjects: nat) {
    forall t, id | 0 <= t < |tables| && id in tables[t].rows ::
      tables[t].rows[id].id == id && RowOk(tables[t].rows[id], |tables|, nwords, nobjects)
  }

  /** Is this the row a table has for an id? */
  predicate RowIn(tables: seq<Table>, table: Option<nat>, id: nat, row: Row) {
    table.Some? && table.value < |tables| && id in tables[table.value].rows && tables[table.value].rows[id] == row
  }

  // ----- the handler ----------------------------------------------------------

  /**
   What a control hook is asked: does it want the field, what bound does its
   schema declare, does it enter the sequence?  `n` is the announced length or
   count, 0 for a scalar; `subtype` is -1 where the wire carries none.
   */
  datatype Question =
    | Wants(id: nat, wt: nat, subtype: int, n: nat)
    | Bounds(id: nat, n: nat, wt: nat, subtype: int)
    | Enters(id: nat)

  /**
   One hook that fired, and on which visitor: a typed one, with its event and
   whether the value went into storage of the handler's; or a control one.  A
   sequence that is entered is one call of `on_sequence_begin`, told as the
   event, so `Enters` stands for one that was declined.
   */
  datatype Call = Call(visitor: int, into: bool, event: Event) | Asked(visitor: int, question: Question)

  /** The three answers to a nested sequence. */
  datatype Descent = Decline | Same | Child(visitor: int)

  /** A buffer a handler hands back: can it be written, how wide is an item, how many bytes does it have? */
  datatype Dest = Dest(writable: bool, itemSize: nat, nbytes: nat)

  /** Bytes that `count` items of one width take; no other width is supported. */
  function ItemBytes(itemSize: nat, count: nat): Option<nat> {
    if itemSize == 1 then Some(count)
    else if itemSize == 2 then Some(2 * count)
    else if itemSize == 4 then Some(4 * count)
    else if itemSize == 8 then Some(8 * count)
    else None
  }

  /** Does the declared element width fit an item of 1, 2 or 4 bytes? */
  predicate WidthFits(itemSize: nat, signed: bool, lo: int, hi: int) {
    var half := if itemSize == 1 then 0x80 else if itemSize == 2 then 0x8000 else 0x8000_0000;
    if signed then lo >= -half && hi < half else hi < 2 * half
  }

  /** A string's or a blob's destination holds single bytes, as many as were announced. */
  predicate BytesFit(d: Dest, len: nat) {
    d.writable && d.itemSize == 1 && d.nbytes >= len
  }

  /** An integer array's holds items every element in its width fits, as many as were announced. */
  predicate IntsFit(d: Dest, signed: bool, lo: int, hi: int, count: nat) {
    var needed := ItemBytes(d.itemSize, count);
    d.writable && needed.Some? && (d.itemSize == 8 || WidthFits(d.itemSize, signed, lo, hi)) && d.nbytes >= needed.value
  }

  /** A float array's holds doubles. */
  predicate FloatsFit(d: Dest, count: nat) {
    d.writable && d.itemSize == 8 && d.nbytes >= 8 * count
  }

  /** The answer to an integer array's header: a destination or none, and an element width. */
  datatype Layout = Layout(into: Option<Dest>, lo: int, hi: int)

  const ANY_LAYOUT := Layout(None, -TWO63, TWO64 - 1)

  /**
   A deterministic handler: every answer is a function of the visitor asked and
   of all it has been told and asked so far, so asking again gives the same
   answer.  `subtype` is -1 where the wire carries none.
   */
  datatype Handler = Handler(
    accept: (int, seq<Call>, nat, nat, int, nat) -> bool,       // on_field: visitor, calls, id, type, subtype, n
    bound: (int, seq<Call>, nat, nat, nat, int) -> int,         // on_schema_bound: visitor, calls, id, n, type, subtype
    enter: (int, seq<Call>, nat) -> Descent,                    // on_sequence_begin
    layout: (int, seq<Call>, nat, bool, nat) -> Layout,         // on_array_begin: visitor, calls, id, signed, count
    place: (int, seq<Call>, nat, nat, int, nat) -> Option<Dest>, // on_string_begin, on_blob_begin, on_float_array_begin
    rawSingles: int -> bool)                                    // does the visitor override on_float32_array_bits?

  /** Everything settled when a decoder is built. */
  datatype Config = Config(
    handler: Handler,
    visitor: Option<int>,
    tables: seq<Table>,
    tabled: bool,
    arrayCap: nat,
    textCap: nat,
    blobCap: nat)

  predicate ConfigOk(cfg: Config, nwords: nat, nobjects: nat) {
    && TablesOk(cfg.tables, nwords, nobjects)
    && (cfg.tabled ==> cfg.tables != [])
    && cfg.arrayCap <= ARRAY_MAX && cfg.textCap <= FIXLEN_MAX && cfg.blobCap <= FIXLEN_MAX
  }
}
