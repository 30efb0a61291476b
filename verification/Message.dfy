/**
 The meaning of a message: what a decoder is told (events), what an encoder is
 asked (operations), the tree both describe, and its canonical bytes.
 */
module Message {
  import opened Wire
  import Utf8

  // Wire types, the low three bits of a field header.
  const UNSIGNED := 0
  const SIGNED := 1
  const FIXLEN := 2
  const ARRAY_UNSIGNED := 3
  const ARRAY_SIGNED := 4
  const ARRAY_FIXLEN := 5
  const SEQUENCE_START := 6
  const SEQUENCE_END := 7

  // Fixlen subtypes, the low three bits of a fixlen word.
  const FP32 := 0
  const FP64 := 1
  const STRING := 2
  const BLOB := 3

  /**
   One field or one sequence marker.  Floats are carried as the payload bytes
   of the wire, which are their raw bits.
   */
  datatype Event =
    | Int(id: nat, signed: bool, value: int)
    | Fixlen(id: nat, st: nat, payload: seq<byte>)
    | Ints(id: nat, signed: bool, values: seq<int>)
    | Floats(id: nat, st: nat, payload: seq<byte>)
    | Begin(id: nat)
    | End

  predicate ValueOk(signed: bool, v: int) {
    if signed then -TWO63 <= v < TWO63 else 0 <= v < TWO64
  }

  /** Bytes of one element of a fixlen array. */
  function Width(st: nat): nat {
    if st == FP32 then 4 else 8
  }

  predicate FixlenOk(st: nat, payload: seq<byte>) {
    && st <= BLOB
    && |payload| <= FIXLEN_MAX
    && (st == FP32 ==> |payload| == 4)
    && (st == FP64 ==> |payload| == 8)
    && (st == STRING ==> Utf8.Valid(payload))
  }

  /** Whole elements only. */
  predicate Whole(st: nat, payload: seq<byte>) {
    if st == FP32 then |payload| % 4 == 0 else |payload| % 8 == 0
  }

  function FloatCount(st: nat, payload: seq<byte>): nat {
    if st == FP32 then |payload| / 4 else |payload| / 8
  }

  predicate FloatsOk(st: nat, payload: seq<byte>) {
    st <= FP64 && Whole(st, payload) && FloatCount(st, payload) <= ARRAY_MAX
  }

  predicate IdOk(e: Event) {
    e.End? || e.id <= ID_MAX
  }

  /** The events a field can have: every range the format states. */
  predicate EventOk(e: Event) {
    && IdOk(e)
    && match e
       case Int(_, signed, v) => ValueOk(signed, v)
       case Fixlen(_, st, payload) => FixlenOk(st, payload)
       case Ints(_, signed, vs) => |vs| <= ARRAY_MAX && forall i | 0 <= i < |vs| :: ValueOk(signed, vs[i])
       case Floats(_, st, payload) => FloatsOk(st, payload)
       case Begin(_) => true
       case End => true
  }

  predicate IsField(e: Event) {
    !e.Begin? && !e.End? && EventOk(e)
  }

  // ----- canonical bytes ----------------------------------------------------

  function Header(id: nat, wt: nat): seq<byte> {
    Varint(id * 8 + wt)
  }

  /** The unsigned form an integer travels in. */
  function Raw(signed: bool, v: int): nat
    requires ValueOk(signed, v)
  {
    if signed then ZigzagEncode(v) else v
  }

  function Cooked(signed: bool, raw: word): (v: int)
    ensures ValueOk(signed, v)
  {
    if signed then ZigzagDecode(raw) else raw
  }

  lemma RawCooked(signed: bool, v: int, raw: word)
    ensures ValueOk(signed, v) ==> Raw(signed, v) < TWO64 && Cooked(signed, Raw(signed, v)) == v
    ensures Raw(signed, Cooked(signed, raw)) == raw
  {
    ZigzagBijection(if ValueOk(true, v) then v else 0, raw);
  }

  function Elements(signed: bool, vs: seq<int>): seq<byte>
    requires forall i | 0 <= i < |vs| :: ValueOk(signed, vs[i])
  {
    if vs == [] then [] else Varint(Raw(signed, vs[0])) + Elements(signed, vs[1..])
  }

  function Emit(e: Event): (out: seq<byte>)
    requires EventOk(e)
    ensures out != []
  {
    match e
    case Int(id, signed, v) => Header(id, if signed then SIGNED else UNSIGNED) + Varint(Raw(signed, v))
    case Fixlen(id, st, payload) => Header(id, FIXLEN) + Varint(|payload| * 8 + st) + payload
    case Ints(id, signed, vs) =>
      Header(id, if signed then ARRAY_SIGNED else ARRAY_UNSIGNED) + Varint(|vs|) + Elements(signed, vs)
    case Floats(id, st, payload) =>
      Header(id, ARRAY_FIXLEN) + Varint(FloatCount(st, payload)) + Varint(Width(st) * 8 + st) + payload
    case Begin(id) => Header(id, SEQUENCE_START)
    case End => [SEQUENCE_END]
  }

  predicate AllOk(es: seq<Event>) {
    forall i | 0 <= i < |es| :: EventOk(es[i])
  }

  function EmitAll(es: seq<Event>): seq<byte>
    requires AllOk(es)
  {
    if es == [] then [] else Emit(es[0]) + EmitAll(es[1..])
  }

  lemma {:induction false} EmitAllAppends(a: seq<Event>, b: seq<Event>)
    requires AllOk(a) && AllOk(b)
    ensures AllOk(a + b)
    ensures EmitAll(a + b) == EmitAll(a) + EmitAll(b)
  {
    if a == [] {
      assert a + b == b;
    } else {
      assert (a + b)[1..] == a[1..] + b;
      EmitAllAppends(a[1..], b);
    }
  }

  lemma EmitOne(e: Event)
    requires EventOk(e)
    ensures EmitAll([e]) == Emit(e)
  {
    assert [e][1..] == [];
  }

  // ----- nesting ------------------------------------------------------------

  /** How an event changes the number of open sequences. */
  function Shift(e: Event, d: int): int {
    if e.Begin? then d + 1 else if e.End? then d - 1 else d
  }

  /** Open sequences after `es`, starting from `d` of them. */
  function Level(es: seq<Event>, d: int): int {
    if es == [] then d else Level(es[1..], Shift(es[0], d))
  }

  /** Never below zero open sequences, never above `MAX_DEPTH`. */
  predicate Nests(es: seq<Event>, d: int) {
    && 0 <= d <= MAX_DEPTH
    && (es != [] ==> Nests(es[1..], Shift(es[0], d)))
  }

  lemma {:induction false} NestsConcat(a: seq<Event>, b: seq<Event>, d: int)
    requires Nests(a, d) && Nests(b, Level(a, d))
    ensures Nests(a + b, d) && Level(a + b, d) == Level(b, Level(a, d))
    decreases |a|
  {
    if a == [] {
      assert a + b == b;
    } else {
      assert (a + b)[1..] == a[1..] + b;
      NestsConcat(a[1..], b, Shift(a[0], d));
    }
  }

  lemma NestsOne(e: Event, d: int)
    requires 0 <= d <= MAX_DEPTH && 0 <= Shift(e, d) <= MAX_DEPTH
    ensures Nests([e], d) && Level([e], d) == Shift(e, d)
  {
    assert [e][1..] == [];
    assert Nests([], Shift(e, d)) && Level([], Shift(e, d)) == Shift(e, d);
  }

  // ----- trees --------------------------------------------------------------

  /**
   A list of fields, some of which are nested sequences.  `keep` says that the
   frame carries information of its own and must survive being empty.
   */
  datatype Forest =
    | Nil
    | Field(e: Event, rest: Forest)
    | Nested(id: nat, keep: bool, kids: Forest, rest: Forest)

  predicate ForestOk(f: Forest) {
    match f
    case Nil => true
    case Field(e, rest) => IsField(e) && ForestOk(rest)
    case Nested(id, _, kids, rest) => id <= ID_MAX && ForestOk(kids) && ForestOk(rest)
  }

  function Max(a: nat, b: nat): nat {
    if a < b then b else a
  }

  function Height(f: Forest): nat {
    match f
    case Nil => 0
    case Field(_, rest) => Height(rest)
    case Nested(_, _, kids, rest) => Max(Height(kids) + 1, Height(rest))
  }

  /** The batch form: every non-kept sequence whose pruned contents are empty is gone. */
  function Prune(f: Forest): Forest {
    match f
    case Nil => Nil
    case Field(e, rest) => Field(e, Prune(rest))
    case Nested(id, keep, kids, rest) =>
      if Prune(kids).Nil? && !keep then Prune(rest)
      else Nested(id, keep, Prune(kids), Prune(rest))
  }

  function Events(f: Forest): seq<Event> {
    match f
    case Nil => []
    case Field(e, rest) => [e] + Events(rest)
    case Nested(id, _, kids, rest) => [Begin(id)] + Events(kids) + [End] + Events(rest)
  }

  lemma {:induction false} PruneKeepsOk(f: Forest)
    requires ForestOk(f)
    ensures ForestOk(Prune(f)) && Height(Prune(f)) <= Height(f)
  {
    match f
    case Nil =>
    case Field(_, rest) => PruneKeepsOk(rest);
    case Nested(_, _, kids, rest) =>
      PruneKeepsOk(kids);
      PruneKeepsOk(rest);
  }

  lemma {:induction false} EventsOk(f: Forest)
    requires ForestOk(f)
    ensures AllOk(Events(f))
    ensures Events(f) == [] <==> f.Nil?
  {
    match f
    case Nil =>
    case Field(_, rest) => EventsOk(rest);
    case Nested(_, _, kids, rest) =>
      EventsOk(kids);
      EventsOk(rest);
  }

  /** The canonical bytes of a tree: the serialization of what pruning leaves. */
  function Canonical(f: Forest): seq<byte>
    requires ForestOk(f)
  {
    PruneKeepsOk(f);
    EventsOk(Prune(f));
    EmitAll(Events(Prune(f)))
  }

  /** The events of a tree nest properly and leave the depth where it was. */
  lemma {:induction false} ForestNests(f: Forest, d: nat)
    requires ForestOk(f) && d + Height(f) <= MAX_DEPTH
    ensures Nests(Events(f), d) && Level(Events(f), d) == d
    decreases f
  {
    match f
    case Nil =>
    case Field(e, rest) =>
      ForestNests(rest, d);
      NestsOne(e, d);
      NestsConcat([e], Events(rest), d);
    case Nested(id, _, kids, rest) =>
      NestsOne(Begin(id), d);
      ForestNests(kids, d + 1);
      NestsConcat([Begin(id)], Events(kids), d);
      NestsOne(End, d + 1);
      NestsConcat([Begin(id)] + Events(kids), [End], d);
      ForestNests(rest, d);
      NestsConcat([Begin(id)] + Events(kids) + [End], Events(rest), d);
  }
}
