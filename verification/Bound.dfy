/**
 The round trip through a destination table: what an encoder wrote for a field
 is what the row it is bound to ends up holding, kind by kind.
 */
module Bound {
  import opened Wire
  import opened Message
  import opened Schema
  import opened Machine
  import F = Floats
  import R = RoundTrip
  import Chunks
  import Caps
  import Scopes
  import Utf8

  /** Fields of this kind go to rows of that: a boolean travels as an unsigned integer. */
  predicate Carries(kind: Kind, e: Event) {
    match e
    case Int(_, signed, _) => if signed then kind.KSigned? else kind.KUnsigned? || kind.KBoolean?
    case Fixlen(_, st, _) =>
      (st == FP32 && kind.KFloat32?) || (st == FP64 && kind.KFloat64?) ||
      (st == STRING && kind.KString?) || (st == BLOB && kind.KBytes?)
    case Ints(_, signed, _) => if signed then kind.KArraySigned? else kind.KArrayUnsigned? || kind.KArrayBoolean?
    case Floats(_, st, _) => (st == FP32 && kind.KArrayFloat32?) || (st == FP64 && kind.KArrayFloat64?)
    case _ => false
  }

  /** A row's tag on the wire is that of the fields it takes. */
  lemma CarriesIsTag(kind: Kind, e: Event)
    requires IsField(e)
    ensures Carries(kind, e) <==> !kind.KSequence? && WireTag(kind) == TagOf(R.AnnouncedBy(e))
  {
  }

  /** An integer within the width a row declares; a boolean row declares none. */
  predicate InWidth(row: Row, signed: bool, v: int) {
    row.bounded && !row.kind.KBoolean? && !row.kind.KArrayBoolean? ==> v <= row.hi && (signed ==> row.lo <= v)
  }

  /** The row takes the event's kind of field, and the value is within what it declares. */
  ghost predicate Suits(row: Row, e: Event) {
    IsField(e) && Carries(row.kind, e) &&
    match e
    case Int(_, signed, v) => InWidth(row, signed, v)
    case Fixlen(_, st, payload) =>
      (st >= STRING && row.cap > 0 ==> |payload| <= row.cap) && (st == STRING ==> Utf8.IsText(payload))
    case Ints(_, signed, vs) => |vs| <= row.cap && forall i | 0 <= i < |vs| :: InWidth(row, signed, vs[i])
    case Floats(_, st, payload) => FloatCount(st, payload) <= row.cap
  }

  /** The count slot is none of the row's value slots. */
  predicate CountBeside(row: Row) {
    && (IsScalar(row.kind) ==> row.countAt != row.at)
    && (IsArray(row.kind) ==> !(row.at <= row.countAt < row.at + row.cap))
  }

  /** The caller's buffer takes the payload and keeps what is behind it. */
  predicate Copied(was: Obj, now: Obj, payload: seq<byte>) {
    && was.Buffer? && now.Buffer? && |now.bytes| == |was.bytes| && |payload| <= |was.bytes|
    && now.bytes[..|payload|] == payload && now.bytes[|payload|..] == was.bytes[|payload|..]
  }

  /** A slot narrows back to the 32 bits of the wire. */
  predicate Narrows(d: word, bits: nat) {
    (F.IsNan64(d) || F.IsSingle(d)) && F.Narrow(d) == bits
  }

  /** Does the storage hold the value that was encoded? */
  ghost predicate Landed(row: Row, e: Event, was: seq<Obj>, words: seq<word>, objects: seq<Obj>)
    requires SlotsOk(row, |words|, |objects|) && |was| == |objects| && Suits(row, e)
  {
    match e
    case Int(_, _, v) => words[row.at] == if row.kind.KBoolean? then (if v == 0 then 0 else 1) else v % TWO64
    case Fixlen(_, st, payload) =>
      if st == FP32 then Narrows(words[row.at], Unsigned(payload))
      else if st == FP64 then words[row.at] == Unsigned(payload)
      else if row.into then Copied(was[row.at], objects[row.at], payload)
      else objects[row.at] == Built(payload)
    case Ints(_, _, vs) =>
      forall k | 0 <= k < |vs| ::
        words[row.at + k] == if row.kind.KArrayBoolean? then (if vs[k] == 0 then 0 else 1) else vs[k] % TWO64
    case Floats(_, st, payload) =>
      forall k | 0 <= k < FloatCount(st, payload) ::
        if st == FP32 then Narrows(words[row.at + k], Unsigned(payload[4 * k..4 * k + 4]))
        else words[row.at + k] == Unsigned(payload[8 * k..8 * k + 8])
  }

  /** The arrival slot's share. */
  function Arriving(row: Row, e: Event): nat {
    match e
    case Fixlen(_, st, payload) => if st >= STRING && row.into then |payload| else 1
    case Ints(_, _, vs) => |vs|
    case Floats(_, st, payload) => FloatCount(st, payload)
    case _ => 1
  }

  predicate Recorded(row: Row, e: Event, words: seq<word>)
    requires row.countAt < |words|
  {
    row.countAt >= 0 ==> words[row.countAt] == Arriving(row, e)
  }

  lemma OneWraps(v: int)
    ensures Slot(v) == v % TWO64
    ensures 0 <= v < TWO64 ==> Truth(v) == if v == 0 then 0 else 1
  {
  }

  /** Is there a buffer for so many bytes where the row expects one? */
  predicate Room(row: Row, n: nat, objects: seq<Obj>)
    requires IsObject(row.kind) ==> row.at < |objects|
  {
    IsObject(row.kind) && row.into ==> objects[row.at].Buffer? && n <= |objects[row.at].bytes|
  }

  predicate HasRoom(row: Row, e: Event, objects: seq<Obj>)
    requires IsObject(row.kind) ==> row.at < |objects|
  {
    e.Fixlen? ==> Room(row, |e.payload|, objects)
  }

  // ----- what a listener makes of the same bytes ------------------------------------------

  function Ear(p: Pending, id: nat): M {
    M(Take(id, None), p, None, Some(0), [], [], [], [])
  }

  /** A listener's attempt at an announced value. */
  function Listened(p: Pending, id: nat, s: seq<byte>): Out
    requires Announced(p)
  {
    Visit(R.Listener(), Ear(p, id), id, s)
  }

  /** It was handed this event. */
  predicate IsTold(v: Out, e: Event) {
    v.Next? && v.m.log == [Call(0, false, e)]
  }

  /** What that comes to, kind by kind. */
  ghost predicate Outcome(p: Pending, id: nat, s: seq<byte>, v: Out)
    requires Announced(p)
  {
    match p
    case Scalar(signed) =>
      if ReadVarint(s).More? then v.Wait?
      else if ReadVarint(s).Overlong? then v.Stop?
      else v.Next? && v.used == ReadVarint(s).len && IsTold(v, Int(id, signed, ScalarAt(signed, s)))
    case Payload(st, len) =>
      if |s| < len then v.Wait?
      else if st == STRING && !Utf8.IsText(s[..len]) then v.Stop?
      else v.Next? && v.used == len && IsTold(v, Fixlen(id, st, s[..len]))
    case VArray(signed, count) =>
      var w := ReadElems(s, count, signed, -TWO63, TWO64 - 1);
      if w.end.Short? then v.Wait?
      else if w.end.Bad? then v.Stop?
      else v.Next? && v.used == w.used && IsTold(v, Ints(id, signed, w.values))
    case FArray(st, count) =>
      var len := F.Packed(Width(st), count);
      if |s| < len then v.Wait? else v.Next? && v.used == len && IsTold(v, Floats(id, st, s[..len]))
  }

  function ScalarAt(signed: bool, s: seq<byte>): int
    requires ReadVarint(s).Got?
  {
    ReadVarintBounds(s);
    Cooked(signed, ReadVarint(s).value)
  }

  lemma ListenedIs(p: Pending, id: nat, s: seq<byte>)
    requires Announced(p)
    ensures Outcome(p, id, s, Listened(p, id, s))
  {
    hide ReadVarint, ReadElems, Utf8.Valid, Utf8.IsText, F.Packed;
    match p
    case Scalar(_) => ReadVarintBounds(s);
    case Payload(_, len) =>
      if len <= |s| {
        Utf8.ValidIff(s[..len]);
      }
    case _ =>
  }

  lemma Telling(p: Pending, id: nat, s: seq<byte>) returns (e: Event)
    requires Announced(p) && id <= ID_MAX
    ensures R.IdOf(e) == id
    ensures Listened(p, id, s).Next? ==> IsTold(Listened(p, id, s), e) && IsField(e) && R.AnnouncedBy(e) == p
  {
    e := Begin(id);
    if Listened(p, id, s).Next? {
      R.ListenerListens();
      e := R.BodyShortest(R.Listener(), Ear(p, id), id, s);
      ListenedIs(p, id, s);
    }
    hide ReadVarint, ReadElems, Utf8.Valid, Utf8.IsText, R.AnnouncedBy, IsField, F.Packed, R.Into, Cooked;
  }

  /**
   What a row makes of the bytes a listener is handed an event from: it takes
   them exactly when the event suits it, and then holds the value; a value that
   does not suit it is malformed.
   */
  ghost predicate Judged(row: Row, was: M, v: Out, e: Event, o: Out)
    requires SlotsOk(row, |was.words|, |was.objects|)
  {
    && |o.m.words| == |was.words| && |o.m.objects| == |was.objects|
    && (o.Next? <==> v.Next? && Suits(row, e))
    && (o.Next? ==> o.used == v.used && Recorded(row, e, o.m.words))
    && (o.Next? && CountBeside(row) ==> Landed(row, e, was.objects, o.m.words, o.m.objects))
    && (o.Wait? ==> v.Wait?)
    && (v.Stop? || (v.Next? && !Suits(row, e)) ==> o.Stop? && o.why.Invalid?)
  }

  /** An announced value, met by a row that takes such values. */
  ghost predicate Faces(m: M, row: Row, p: Pending, s: seq<byte>, v: Out, e: Event) {
    && SlotsOk(row, |m.words|, |m.objects|) && Announced(p) && Bare(m.pending) == p
    && !row.kind.KSequence? && WireTag(row.kind) == TagOf(p) && Outcome(p, R.IdOf(e), s, v)
    && (v.Next? ==> IsTold(v, e) && IsField(e) && Carries(row.kind, e) && R.AnnouncedBy(e) == p)
  }

  lemma ScalarJudged(m: M, row: Row, s: seq<byte>, v: Out, e: Event)
    requires Faces(m, row, m.pending, s, v, e) && m.pending.Scalar?
    ensures Judged(row, m, v, e, TakeScalar(m, row, s))
  {
    hide ReadVarint, ResetOk, ZigzagDecode, Slot, Truth;
    ReadVarintBounds(s);
    if ReadVarint(s).Got? {
      OneWraps(ScalarAt(row.kind.KSigned?, s));
    }
  }

  lemma Wraps(vs: seq<int>, k: nat)
    requires k < |vs| && -TWO63 <= vs[k] < TWO64
    ensures Slots(vs)[k] == vs[k] % TWO64 && Truths(Slots(vs))[k] == if vs[k] == 0 then 0 else 1
  {
  }

  predicate Within(vs: seq<int>, lo: int, hi: int) {
    forall i | 0 <= i < |vs| :: lo <= vs[i] <= hi
  }

  lemma WithinOne(v: int, vs: seq<int>, lo: int, hi: int)
    ensures Within([], lo, hi)
    ensures Within([v] + vs, lo, hi) <==> lo <= v <= hi && Within(vs, lo, hi)
  {
    var all := [v] + vs;
    assert all[0] == v && forall i | 0 <= i < |vs| :: vs[i] == all[i + 1];
  }

  /** Elements read within a width are those read without one, up to the first outside it. */
  lemma {:induction false} ElemsWithin(s: seq<byte>, count: nat, signed: bool, lo: int, hi: int)
    ensures
      var e, w := ReadElems(s, count, signed, lo, hi), ReadElems(s, count, signed, -TWO63, TWO64 - 1);
      if Within(w.values, lo, hi) then e == w else e.end.Bad?
    decreases count
  {
    hide ReadVarint, Cooked;
    if count > 0 && ReadVarint(s).Got? {
      hide Within;
      var raw, n := ReadVarint(s).value, ReadVarint(s).len;
      ReadVarintBounds(s);
      var v := Cooked(signed, raw);
      assert -TWO63 <= v <= TWO64 - 1;
      ElemsWithin(s[n..], count - 1, signed, lo, hi);
      WithinOne(v, ReadElems(s[n..], count - 1, signed, -TWO63, TWO64 - 1).values, lo, hi);
    }
  }

  lemma IntsSuit(row: Row, e: Event)
    requires e.Ints? && IsField(e) && Carries(row.kind, e) && |e.values| <= row.cap
    ensures Suits(row, e) <==> Within(e.values, RowLo(row), RowHi(row))
  {
  }

  /** What an integer array row holds behind the elements. */
  ghost predicate Holds(row: Row, vs: seq<int>, words: seq<word>)
    requires row.at + |vs| <= |words|
  {
    forall k | 0 <= k < |vs| ::
      words[row.at + k] == if row.kind.KArrayBoolean? then (if vs[k] == 0 then 0 else 1) else vs[k] % TWO64
  }

  lemma Stored(m: M, row: Row, vs: seq<int>)
    requires row.at + |vs| <= |m.words| && row.countAt < |m.words| && |vs| < TWO64
    requires forall i | 0 <= i < |vs| :: -TWO63 <= vs[i] < TWO64
    ensures
      var stored := if row.kind.KArrayBoolean? then Truths(Slots(vs)) else Slots(vs);
      var n := Arrived(m.(words := Fill(m.words, row.at, stored)), row, |vs|);
      && |n.words| == |m.words| && n.objects == m.objects
      && (row.countAt >= 0 ==> n.words[row.countAt] == |vs|)
      && (!(row.at <= row.countAt < row.at + |vs|) ==> Holds(row, vs, n.words))
  {
    hide Truths, Slots;
    forall k | 0 <= k < |vs|
      ensures Slots(vs)[k] == vs[k] % TWO64
      ensures Truths(Slots(vs))[k] == if vs[k] == 0 then 0 else 1
    {
      Wraps(vs, k);
    }
  }

  /** The attempt: up to the first element that is missing, malformed or outside the width. */
  lemma IntsTaken(m: M, row: Row, s: seq<byte>)
    requires SlotsOk(row, |m.words|, |m.objects|) && m.pending.VArray? && Announced(m.pending)
    requires row.kind.KArrayUnsigned? || row.kind.KArraySigned? || row.kind.KArrayBoolean?
    requires m.pending.count <= row.cap && m.pending.signed == row.kind.KArraySigned?
    ensures
      var w, o := ReadElems(s, m.pending.count, m.pending.signed, -TWO63, TWO64 - 1), TakeInts(m, row, s);
      && |w.values| <= m.pending.count && |o.m.words| == |m.words| && |o.m.objects| == |m.objects|
      && if !Within(w.values, RowLo(row), RowHi(row)) || w.end.Bad? then o.Stop? && o.why.Invalid?
         else if w.end.Short? then o.Wait?
         else
           && o.Next? && o.used == w.used && o.m.objects == m.objects && |w.values| == m.pending.count
           && (row.countAt >= 0 ==> o.m.words[row.countAt] == |w.values|)
           && (CountBeside(row) ==> Holds(row, w.values, o.m.words))
  {
    var count, signed := m.pending.count, m.pending.signed;
    var w := ReadElems(s, count, signed, -TWO63, TWO64 - 1);
    ReadElemsBounds(s, count, signed, -TWO63, TWO64 - 1);
    ElemsWithin(s, count, signed, RowLo(row), RowHi(row));
    hide ReadElems, ResetOk, Slots, Truths, RowLo, RowHi, Within, Fill, Arrived;
    Stored(m, row, w.values);
  }

  lemma IntsJudged(m: M, row: Row, s: seq<byte>, v: Out, e: Event)
    requires Faces(m, row, m.pending, s, v, e) && m.pending.VArray? && m.pending.count <= row.cap
    ensures Judged(row, m, v, e, TakeInts(m, row, s))
  {
    hide ReadElems, RowLo, RowHi, InWidth, Within, TakeInts;
    IntsTaken(m, row, s);
    if v.Next? {
      IntsSuit(row, e);
    }
  }

  lemma FloatJudged(m: M, row: Row, s: seq<byte>, v: Out, e: Event)
    requires Faces(m, row, m.pending, s, v, e) && m.pending.Payload? && m.pending.st <= FP64
    ensures Judged(row, m, v, e, TakeFloat(m, row, s))
  {
    hide F.Element, Narrows, ResetOk;
    var len := m.pending.len;
    if len <= |s| {
      ElementBack(s[..len], len, 0);
      assert s[..len][0..len] == s[..len];
    }
  }

  /** The attempt at a float array. */
  lemma FloatsTaken(m: M, row: Row, s: seq<byte>)
    requires SlotsOk(row, |m.words|, |m.objects|) && m.pending.FArray? && Announced(m.pending)
    requires if m.pending.st == FP32 then row.kind.KArrayFloat32? else row.kind.KArrayFloat64?
    requires m.pending.count <= row.cap
    ensures
      var st, count, o := m.pending.st, m.pending.count, TakeFloats(m, row, s);
      var len := F.Packed(Width(st), count);
      && |o.m.words| == |m.words| && |o.m.objects| == |m.objects|
      && if |s| < len then o.Wait?
         else
           && o.Next? && o.used == len && o.m.objects == m.objects
           && (row.countAt >= 0 ==> o.m.words[row.countAt] == count)
           && (CountBeside(row) ==> Singles(row, st, s[..len], count, o.m.words))
  {
    var st, count := m.pending.st, m.pending.count;
    var len := F.Packed(Width(st), count);
    hide Fill, Arrived, Singles, ResetOk, CountBeside, F.Elements;
    if len <= |s| {
      FloatsStored(m, row, st, s[..len], count);
    }
  }

  lemma FloatsStored(m: M, row: Row, st: nat, payload: seq<byte>, count: nat)
    requires st <= FP64 && |payload| == F.Packed(Width(st), count) && row.countAt < |m.words| && count < TWO64
    requires count <= row.cap && row.at + row.cap <= |m.words| && IsArray(row.kind)
    ensures
      var n := Arrived(m.(words := Fill(m.words, row.at, F.Elements(payload, Width(st), count))), row, count);
      && |n.words| == |m.words| && n.objects == m.objects
      && (row.countAt >= 0 ==> n.words[row.countAt] == count)
      && (CountBeside(row) ==> Singles(row, st, payload, count, n.words))
  {
    hide F.Element, Narrows;
    forall k | 0 <= k < count
      ensures if st == FP32 then Narrows(F.Element(payload, 4, k), Unsigned(payload[4 * k..4 * k + 4]))
              else F.Element(payload, 8, k) == Unsigned(payload[8 * k..8 * k + 8])
    {
      ElementBack(payload, Width(st), k);
    }
  }

  /** What a float array row holds behind the elements. */
  predicate Singles(row: Row, st: nat, payload: seq<byte>, count: nat, words: seq<word>)
    requires row.at + count <= |words| && st <= FP64 && |payload| == F.Packed(Width(st), count)
  {
    forall k | 0 <= k < count ::
      if st == FP32 then Narrows(words[row.at + k], Unsigned(payload[4 * k..4 * k + 4]))
      else words[row.at + k] == Unsigned(payload[8 * k..8 * k + 8])
  }

  lemma FloatsJudged(m: M, row: Row, s: seq<byte>, v: Out, e: Event)
    requires Faces(m, row, m.pending, s, v, e) && m.pending.FArray? && m.pending.count <= row.cap
    ensures Judged(row, m, v, e, TakeFloats(m, row, s))
  {
    FloatsTaken(m, row, s);
    hide TakeFloats, Narrows, ResetOk;
    if v.Next? {
      assert FloatCount(e.st, e.payload) == m.pending.count;
    }
  }

  lemma ElementBack(payload: seq<byte>, width: nat, k: nat)
    requires (width == 4 || width == 8) && F.Packed(width, k + 1) <= |payload|
    ensures if width == 4 then Narrows(F.Element(payload, 4, k), Unsigned(payload[4 * k..4 * k + 4]))
            else F.Element(payload, 8, k) == Unsigned(payload[8 * k..8 * k + 8])
  {
    if width == 4 {
      F.Fp32RoundTrip(F.Bits(payload, k));
    }
    hide F.Widen, F.Narrow;
  }

  lemma ObjectJudged(m: M, row: Row, p: Pending, s: seq<byte>, v: Out, e: Event)
    requires Faces(m, row, p, s, v, e) && p.Payload? && p.st >= STRING && Room(row, p.len, m.objects)
    requires (row.cap > 0 ==> p.len <= row.cap) && (m.pending.Limit? ==> row.into)
    ensures Judged(row, m, v, e, TakeObject(m, row, s))
  {
    hide Utf8.Valid, ResetOk, Utf8.IsText;
    if p.len <= |s| {
      Utf8.ValidIff(s[..p.len]);
    }
  }

  /** A row the schema bounds, or that has a buffer of its own, no cap speaks for. */
  predicate Spared(row: Row, p: Pending) {
    p.Limit? ==> IsArray(row.kind) || row.cap > 0 || row.into
  }

  /** A value over the declared bound suits no row. */
  lemma OverBound(m: M, row: Row, p: Pending, s: seq<byte>, v: Out, e: Event)
    requires Faces(m, row, p, s, v, e) && 0 <= row.Declared() < Size(p)
    ensures v.Next? ==> !Suits(row, e)
  {
    hide Utf8.IsText;
  }

  /**
   Whatever bytes follow its header, a bound field is taken exactly when a
   listener would be handed an event from them that suits the row: of its kind,
   an integer or every element within the declared width, no longer than the
   row, a text that is one.  What is taken is in the row's storage, and what
   does not suit, or is malformed for a listener, ends the decode INVALID.
   Without a buffer where one is needed, or over a cap nothing spares it from,
   it is never taken.
   */
  lemma MappedVerdict(m: M, row: Row, id: nat, s: seq<byte>) returns (e: Event)
    requires Chunks.Takable(m, row) && id <= ID_MAX
    ensures
      var v := Listened(Bare(m.pending), id, s);
      var (picked, fits) := Select(m, row);
      var o := TakeMapped(m, row, s);
      && (v.Next? ==> IsTold(v, e) && IsField(e) && R.AnnouncedBy(e) == Bare(m.pending))
      && if fits && Room(row, Size(Bare(m.pending)), picked.objects) && Spared(row, m.pending) then
           Judged(row, picked, v, e, o)
         else o.Stop?
  {
    hide SlotsOk, Select, TakeReady, Listened, Judged, Suits, Outcome, R.AnnouncedBy, Room;
    var p := Bare(m.pending);
    var v := Listened(p, id, s);
    e := Telling(p, id, s);
    ListenedIs(p, id, s);
    var (picked, fits) := Select(m, row);
    if fits {
      if v.Next? {
        CarriesIsTag(row.kind, e);
      }
      SettledVerdict(picked, row, s, v, e);
    }
  }

  /** The same, once the option is selected. */
  lemma SettledVerdict(m: M, row: Row, s: seq<byte>, v: Out, e: Event)
    requires Chunks.Takable(m, row) && Faces(m, row, Bare(m.pending), s, v, e)
    ensures
      var settled := Settle(m.pending, row.Declared());
      var o := if settled.None? then Stop(m, Invalid) else TakeReady(m.(pending := settled.value), row, s);
      if Room(row, Size(Bare(m.pending)), m.objects) && Spared(row, m.pending) then Judged(row, m, v, e, o)
      else o.Stop?
  {
    Caps.SettlesIff(m.pending, row.Declared());
    var settled := Settle(m.pending, row.Declared());
    if settled.None? {
      OverBound(m, row, Bare(m.pending), s, v, e);
      hide Outcome, Suits, Landed, Recorded, CountBeside, R.AnnouncedBy, Carries;
    } else {
      var ready := m.(pending := settled.value);
      ReadyVerdict(ready, row, s, v, e);
    }
  }

  lemma ReadyVerdict(m: M, row: Row, s: seq<byte>, v: Out, e: Event)
    requires Chunks.Ready(m, row) && Faces(m, row, Bare(m.pending), s, v, e)
    requires 0 <= row.Declared() ==> Size(Bare(m.pending)) <= row.Declared() && m.pending == Bare(m.pending)
    ensures
      if Room(row, Size(Bare(m.pending)), m.objects) && Spared(row, m.pending) then
        Judged(row, m, v, e, TakeReady(m, row, s))
      else TakeReady(m, row, s).Stop?
  {
    hide Judged, Outcome, R.AnnouncedBy, Carries, TakeInts, TakeFloats, TakeScalar, TakeFloat, ResetOk;
    match Bare(m.pending)
    case Scalar(_) => ScalarJudged(m, row, s, v, e);
    case VArray(_, _) => IntsJudged(m, row, s, v, e);
    case FArray(_, _) => FloatsJudged(m, row, s, v, e);
    case Payload(st, _) =>
      if st < STRING {
        FloatJudged(m, row, s, v, e);
      } else if Room(row, Size(Bare(m.pending)), m.objects) && Spared(row, m.pending) {
        ObjectJudged(m, row, Bare(m.pending), s, v, e);
      } else {
        hide Utf8.Valid;
      }
  }

  /**
   A field encoded in range and met by the row it is bound to is taken whole,
   whatever follows it: its value is in the row's storage and its arrival is
   recorded.
   */
  lemma FieldLands(m: M, row: Row, e: Event, rest: seq<byte>)
    requires SlotsOk(row, |m.words|, |m.objects|) && Suits(row, e) && CountBeside(row)
    requires m.pending == R.AnnouncedBy(e)
    requires Select(m, row).1 && HasRoom(row, e, Select(m, row).0.objects)
    ensures
      var o := TakeMapped(m, row, R.Body(e) + rest);
      var picked := Select(m, row).0;
      && o.Next? && o.used == |R.Body(e)| && |o.m.words| == |m.words| && |o.m.objects| == |m.objects|
      && Landed(row, e, picked.objects, o.m.words, o.m.objects) && Recorded(row, e, o.m.words)
  {
    assert IsField(e) && Carries(row.kind, e);
    hide Select, Landed, Recorded, R.Body, SlotsOk, CountBeside, TakeMapped, Suits, Visit, R.Listener;
    var p, s := R.AnnouncedBy(e), R.Body(e) + rest;
    BodyListened(e, rest);
    CarriesIsTag(row.kind, e);
    var told := MappedVerdict(m, row, e.id, s);
  }

  /** An element outside the row's width ends the decode INVALID, whatever follows it. */
  lemma OutsideIsInvalid(m: M, row: Row, p: Pending, vs: seq<int>, rest: seq<byte>)
    requires Chunks.Takable(m, row) && Select(m, row).1 && Bare(m.pending) == p && p.VArray? && |vs| <= p.count
    requires forall i | 0 <= i < |vs| :: ValueOk(p.signed, vs[i])
    requires exists i | 0 <= i < |vs| :: !InWidth(row, p.signed, vs[i])
    ensures
      var o := TakeMapped(m, row, Message.Elements(p.signed, vs) + rest);
      o.Stop? && o.why.Invalid?
  {
    hide TakeMapped, TakeInts, Select, ResetOk, InWidth, Message.Elements;
    MappedInts(m, row, p, Message.Elements(p.signed, vs) + rest);
    if p.count <= row.cap {
      OutsideInts(Select(m, row).0.(pending := p), row, vs, rest);
    }
  }

  lemma OutsideInts(m: M, row: Row, vs: seq<int>, rest: seq<byte>)
    requires SlotsOk(row, |m.words|, |m.objects|) && m.pending.VArray? && Announced(m.pending)
    requires m.pending.count <= row.cap && |vs| <= m.pending.count
    requires if m.pending.signed then row.kind.KArraySigned? else row.kind.KArrayUnsigned? || row.kind.KArrayBoolean?
    requires forall i | 0 <= i < |vs| :: ValueOk(m.pending.signed, vs[i])
    requires exists i | 0 <= i < |vs| :: !InWidth(row, m.pending.signed, vs[i])
    ensures
      var o := TakeInts(m, row, Message.Elements(m.pending.signed, vs) + rest);
      o.Stop? && o.why.Invalid?
  {
    var signed := m.pending.signed;
    OutsideRow(row, signed, vs);
    R.ElementOutside(signed, vs, rest, m.pending.count, RowLo(row), RowHi(row));
    hide TakeInts, SlotsOk, InWidth, RowLo, RowHi, Message.Elements, ReadElems;
    BadIsInvalid(m, row, Message.Elements(signed, vs) + rest);
  }

  lemma OutsideRow(row: Row, signed: bool, vs: seq<int>)
    requires if signed then row.kind.KArraySigned? else row.kind.KArrayUnsigned? || row.kind.KArrayBoolean?
    requires forall i | 0 <= i < |vs| :: ValueOk(signed, vs[i])
    requires exists i | 0 <= i < |vs| :: !InWidth(row, signed, vs[i])
    ensures exists i | 0 <= i < |vs| :: !(RowLo(row) <= vs[i] <= RowHi(row))
  {
    var k :| 0 <= k < |vs| && !InWidth(row, signed, vs[k]);
    assert !(RowLo(row) <= vs[k] <= RowHi(row));
  }

  lemma BadIsInvalid(m: M, row: Row, s: seq<byte>)
    requires SlotsOk(row, |m.words|, |m.objects|) && m.pending.VArray? && Announced(m.pending)
    requires row.kind.KArrayUnsigned? || row.kind.KArraySigned? || row.kind.KArrayBoolean?
    requires m.pending.count <= row.cap
    requires ReadElems(s, m.pending.count, row.kind.KArraySigned?, RowLo(row), RowHi(row)).end.Bad?
    ensures TakeInts(m, row, s).Stop? && TakeInts(m, row, s).why.Invalid?
  {
    hide ReadElems, RowLo, RowHi, Slots, ResetOk;
  }

  lemma MappedInts(m: M, row: Row, p: Pending, s: seq<byte>)
    requires Chunks.Takable(m, row) && Select(m, row).1 && Bare(m.pending) == p && p.VArray?
    ensures
      var picked := Select(m, row).0;
      && Announced(p) && SlotsOk(row, |picked.words|, |picked.objects|)
      && (if p.signed then row.kind.KArraySigned? else row.kind.KArrayUnsigned? || row.kind.KArrayBoolean?)
      && TakeMapped(m, row, s) ==
      if p.count > row.cap then Stop(picked, Invalid) else TakeInts(picked.(pending := p), row, s)
  {
    hide Select, TakeInts, ResetOk;
  }

  lemma BodyListened(e: Event, rest: seq<byte>)
    requires IsField(e)
    ensures Announced(R.AnnouncedBy(e)) && PendingOk(R.AnnouncedBy(e)) && Bare(R.AnnouncedBy(e)) == R.AnnouncedBy(e)
    ensures
      var v := Listened(R.AnnouncedBy(e), e.id, R.Body(e) + rest);
      v.Next? && IsTold(v, e) && v.used == |R.Body(e)|
  {
    R.ListenerListens();
    R.BodyInverts(R.Listener(), Ear(R.AnnouncedBy(e), e.id), e, rest);
    hide Visit, R.Body;
  }

  /** The machine between two fields, over a table that binds the event's id to the row. */
  ghost predicate Meets(cfg: Config, m: M, row: Row, e: Event) {
    && Ok(cfg, m) && m.phase == Walk && m.pending == Nothing && R.Roomy(cfg)
    && Suits(row, e) && CountBeside(row)
    && m.table.Some? && m.table.value < |cfg.tables| && e.id in cfg.tables[m.table.value].rows
    && cfg.tables[m.table.value].rows[e.id] == row
    && SlotsOk(row, |m.words|, |m.objects|)
    && Select(m, row).1 && HasRoom(row, e, Select(m, row).0.objects)
  }

  lemma RowFound(cfg: Config, m: M, row: Row, e: Event)
    requires Meets(cfg, m, row, e)
    ensures Machine.Depth(m) == |m.scopes| && R.IdOf(e) <= ID_MAX && IsField(e)
    ensures Header(R.IdOf(e), R.WireTypeOf(e)) != []
    ensures PendingOk(R.AnnouncedBy(e)) && Announced(R.AnnouncedBy(e)) && Bare(R.AnnouncedBy(e)) == R.AnnouncedBy(e)
    ensures Lookup(cfg, m.table, R.IdOf(e), R.WireTypeOf(e), R.SubOf(e)) == Some(row)
  {
    hide ScopesOk, TablesOk, SlotsOk, Select;
  }

  lemma HeadTakes(cfg: Config, m: M, row: Row, e: Event, head: seq<byte>, body: seq<byte>)
    requires Meets(cfg, m, row, e)
    requires ParseHead(cfg, head + body, |m.scopes|) ==
             Head(R.WireTypeOf(e), R.IdOf(e), R.SubOf(e), R.AnnouncedBy(e), |head|) && head != []
    ensures
      Step(cfg, m, head + body) == Next(m.(pending := R.AnnouncedBy(e), phase := Take(e.id, Some(row))), |head|)
  {
    RowFound(cfg, m, row, e);
    hide ScopesOk, TablesOk, SlotsOk, Select, ParseHead, Lookup, Suits;
  }

  lemma SelectAlike(m: M, t: M, row: Row)
    requires SlotsOk(row, |m.words|, |m.objects|) && t.words == m.words && t.objects == m.objects
    ensures Select(t, row).1 == Select(m, row).1 && Select(t, row).0.objects == Select(m, row).0.objects
  {
    hide ResetWords, ResetObjects, ResetInto;
  }

  /** Taking a field for a table tells the handler nothing and opens or closes no scope. */
  lemma TakeIsQuiet(m: M, row: Row, s: seq<byte>)
    requires SlotsOk(row, |m.words|, |m.objects|) && !row.kind.KSequence?
    requires PendingOk(m.pending) && Announced(Bare(m.pending)) && WireTag(row.kind) == TagOf(Bare(m.pending))
    ensures
      var o := TakeMapped(m, row, s);
      o.Next? ==> o.m.phase == Walk && o.m.pending == Nothing && o.m.scopes == m.scopes && o.m.log == m.log
  {
    Scopes.MappedIsSilent(m, row, s);
    hide SlotsOk, Select, ReadVarint, ReadElems, Utf8.Valid, TakeReady;
  }

  /**
   A bound field, header and all, from one field boundary to the next: one
   stretch of the run, behind which the value is in the row's storage.
   */
  lemma BoundFieldRuns(cfg: Config, m: M, row: Row, e: Event, rest: seq<byte>) returns (n: M)
    requires Meets(cfg, m, row, e)
    ensures Ok(cfg, n) && Run(cfg, m, Emit(e) + rest) == Later(Run(cfg, n, rest), |Emit(e)|)
    ensures n.phase == Walk && n.pending == Nothing && n.scopes == m.scopes && n.log == m.log
    ensures |n.words| == |m.words| && |n.objects| == |m.objects| && SlotsOk(row, |n.words|, |n.objects|)
    ensures Landed(row, e, Select(m, row).0.objects, n.words, n.objects) && Recorded(row, e, n.words)
  {
    hide ScopesOk, TablesOk, SlotsOk, Select, TakeMapped, ParseHead, Landed, Recorded, Suits, CountBeside;
    hide R.Body, R.Words, Run, Header, Lookup;
    RowFound(cfg, m, row, e);
    R.EmitParts(e);
    var head := Header(R.IdOf(e), R.WireTypeOf(e)) + R.Words(e);
    R.Glue(head, R.Body(e), rest);
    R.HeadInverts(cfg, e, R.Body(e) + rest, |m.scopes|);
    var t := m.(pending := R.AnnouncedBy(e), phase := Take(e.id, Some(row)));
    HeadTakes(cfg, m, row, e, head, R.Body(e) + rest);
    Unfold(cfg, m, head + (R.Body(e) + rest));
    SelectAlike(m, t, row);
    FieldLands(t, row, e, rest);
    TakeIsQuiet(t, row, R.Body(e) + rest);
    Unfold(cfg, t, R.Body(e) + rest);
    R.Glue(R.Body(e), rest, []);
    assert (R.Body(e) + rest)[|R.Body(e)|..] == rest;
    n := TakeMapped(t, row, R.Body(e) + rest).m;
    Chunks.LaterLater(Run(cfg, n, rest), |R.Body(e)|, |head|);
  }
}
