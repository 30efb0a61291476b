/**
 What a receiver does not want.  A skip consumes the bytes a read would have
 consumed and reaches the same verdict about their framing, over any chunking;
 and nothing of what it passes is held back for the next feed.
 */
module Skips {
  import opened Wire
  import opened Message
  import opened Schema
  import opened Machine
  import Chunks
  import F = Floats
  import Utf8

  // ----- a skip and a read ----------------------------------------------------------

  /** The first varint of a run, dropped byte by byte with `k` of its bytes gone already. */
  lemma {:induction false} DropOne(s: seq<byte>, left: nat, k: nat)
    requires left > 0 && k <= 9
    ensures
      var d := DropVarints(s, left, k);
      match VarintFrom(s, k)
      case Got(_, n) =>
        && n <= |s|
        && var e := DropVarints(s[n..], left - 1, 0);
           d == (e.0, e.1, e.2 + n, e.3)
      case More => d == (left, k + |s|, |s|, Short)
      case Overlong => d.3.Bad?
    decreases 9 - k
  {
    Chunks.DropByte(s, left, k);
    VarintByte(s, k);
    hide DropVarints, VarintFrom;
    if s != [] && k < 9 && s[0] >= 128 {
      DropOne(s[1..], left, k + 1);
      var v := VarintFrom(s[1..], k + 1);
      if v.Got? {
        assert s[1..][v.len..] == s[v.len + 1..];
      }
    }
  }

  /** One byte of a varint, read. */
  lemma VarintByte(s: seq<byte>, k: nat)
    requires k <= 9
    ensures
      var v := VarintFrom(s, k);
      if s == [] then v.More?
      else if k == 9 then (if s[0] > 1 then v.Overlong? else v.Got? && v.len == 1)
      else if s[0] < 128 then v.Got? && v.len == 1
      else
        var w := VarintFrom(s[1..], k + 1);
        (v.More? <==> w.More?) && (v.Overlong? <==> w.Overlong?) && (w.Got? ==> v.Got? && v.len == w.len + 1)
  {
  }

  /** Dropping a run of varints ends where reading them unbounded would, for the same reason. */
  lemma {:induction false} DropAgreesWithRead(s: seq<byte>, count: nat, signed: bool, lo: int, hi: int)
    requires lo <= -TWO63 && TWO64 - 1 <= hi
    ensures
      var d, e := DropVarints(s, count, 0), ReadElems(s, count, signed, lo, hi);
      d.3 == e.end && (e.end.Through? ==> d.2 == e.used)
    decreases count
  {
    hide VarintFrom, DropVarints;
    if count > 0 {
      DropOne(s, count, 0);
      ReadVarintBounds(s);
      if ReadVarint(s).Got? {
        DropAgreesWithRead(s[ReadVarint(s).len..], count - 1, signed, lo, hi);
      }
    } else {
      Chunks.DropNone(s, 0);
    }
  }

  /** A handler that asks for elements of any width. */
  ghost predicate AnyWidth(cfg: Config, m: M, id: nat)
    requires m.visitor.Some?
  {
    forall signed: bool, count: nat ::
      var l := cfg.handler.layout(m.visitor.value, m.log, id, signed, count);
      l.lo <= -TWO63 && TWO64 - 1 <= l.hi
  }

  /** A destination the handler hands back that cannot take the value. */
  predicate Misplaced(cfg: Config, m: M, id: nat)
    requires m.visitor.Some?
  {
    var who := m.visitor.value;
    match Bare(m.pending)
    case Payload(st, len) =>
      st >= STRING &&
      var dst := cfg.handler.place(who, m.log, id, FIXLEN, st, len);
      dst.Some? && !BytesFit(dst.value, len)
    case VArray(signed, count) =>
      var l := cfg.handler.layout(who, m.log, id, signed, count);
      l.into.Some? && !IntsFit(l.into.value, signed, l.lo, l.hi, count)
    case FArray(st, count) =>
      var dst := FloatPlace(cfg, m, id, st, count);
      dst.Some? && !FloatsFit(dst.value, count)
    case _ => false
  }

  /** Text is the one payload a read looks into and a skip does not. */
  predicate BadText(p: Pending, s: seq<byte>) {
    p.Payload? && p.st == STRING && p.len <= |s| && !Utf8.Valid(s[..p.len])
  }

  /**
   Skip agrees with read.  Where no cap is in the way, skipping a pending value
   waits, fails and ends exactly where handing it to the visitor would, save
   that text is not validated and no destination is asked for.
   */
  lemma SkipAgreesWithRead(cfg: Config, m: M, id: nat, s: seq<byte>)
    requires m.visitor.Some? && Announced(m.pending) && AnyWidth(cfg, m, id)
    ensures
      var read, skip := Visit(cfg, m, id, s), SkipPending(m, s);
      && (read.Next? <==> skip.Next? && !BadText(m.pending, s) && !Misplaced(cfg, m, id))
      && (BadText(m.pending, s) ==> skip.Next?)
      && (read.Next? ==> read.used == skip.used)
      && (read.Wait? <==> skip.Wait? && !Misplaced(cfg, m, id))
      && (read.Stop? <==> skip.Stop? || BadText(m.pending, s) || Misplaced(cfg, m, id))
  {
    hide DropVarints, ReadElems, Utf8.Valid, Deliver, ReadVarint, BytesFit, IntsFit, FloatsFit;
    match m.pending
    case Scalar(_) =>
    case Payload(_, len) =>
      if len <= |s| {
        Chunks.DropNone(s[len..], 0);
      }
    case VArray(signed, count) =>
      var l := cfg.handler.layout(m.visitor.value, m.log, id, signed, count);
      DropAgreesWithRead(s, count, signed, l.lo, l.hi);
      assert s[0..] == s;
    case FArray(st, count) =>
      var len := F.Packed(Width(st), count);
      if len <= |s| {
        Chunks.DropNone(s[len..], 0);
      }
  }

  // ----- what is held back -------------------------------------------------------------

  /** More than is ever held of a construct in the state a feed leaves it in. */
  function Room(m: M): nat {
    match Bare(m.pending)
    case Nothing => 3 * VARINT_MAX
    case Scalar(_) => VARINT_MAX
    case Payload(_, len) => len
    case VArray(_, count) => VARINT_MAX * count
    case FArray(st, count) => F.Packed(Width(st), count)
    case _ => 1
  }

  lemma {:induction false} ShortElems(s: seq<byte>, count: nat, signed: bool, lo: int, hi: int)
    requires ReadElems(s, count, signed, lo, hi).end.Short?
    ensures |s| < VARINT_MAX * count
    decreases count
  {
    ReadVarintBounds(s);
    if ReadVarint(s).Got? {
      ShortElems(s[ReadVarint(s).len..], count - 1, signed, lo, hi);
    }
  }

  lemma ShortHead(cfg: Config, s: seq<byte>, depth: nat)
    requires ParseHead(cfg, s, depth).HeadShort?
    ensures |s| < 3 * VARINT_MAX
  {
    hide VarintFrom;
    ReadVarintBounds(s);
    if ReadVarint(s).Got? {
      var t := s[ReadVarint(s).len..];
      ReadVarintBounds(t);
      if ReadVarint(t).Got? {
        ReadVarintBounds(t[ReadVarint(t).len..]);
      }
    }
  }

  lemma ShortTake(m: M, row: Row, s: seq<byte>)
    requires SlotsOk(row, |m.words|, |m.objects|) && !row.kind.KSequence?
    requires PendingOk(m.pending) && Announced(Bare(m.pending)) && WireTag(row.kind) == TagOf(Bare(m.pending))
    requires TakeMapped(m, row, s).Wait?
    ensures |s| < Room(m)
  {
    hide SlotsOk, Select, ReadVarint, ReadElems, Utf8.Valid;
    ReadVarintBounds(s);
    var bare := Bare(m.pending);
    if bare.VArray? && ReadElems(s, bare.count, row.kind.KArraySigned?, RowLo(row), RowHi(row)).end.Short? {
      ShortElems(s, bare.count, row.kind.KArraySigned?, RowLo(row), RowHi(row));
    }
  }

  lemma ShortVisit(cfg: Config, m: M, id: nat, s: seq<byte>)
    requires m.visitor.Some? && Announced(Bare(m.pending)) && Visit(cfg, m, id, s).Wait?
    ensures |s| < Room(m)
  {
    hide ReadVarint, ReadElems, Utf8.Valid;
    ReadVarintBounds(s);
    match Bare(m.pending)
    case VArray(signed, count) =>
      var l := cfg.handler.layout(m.visitor.value, m.log, id, signed, count);
      ShortElems(s, count, signed, l.lo, l.hi);
    case _ =>
  }

  /** Little is left over where a step waits: of a skipped payload, nothing at all. */
  predicate HoldsLittle(o: Out, s: seq<byte>)
    requires o.Wait?
  {
    && o.used <= |s| && |s| - o.used < Room(o.m)
    && (o.m.phase.Take? || o.m.pending == Nothing || o.m.pending.Scalar? || (o.m.pending.Discard? && o.used == |s|))
  }

  lemma SkipHoldsLittle(m: M, s: seq<byte>)
    requires PendingOk(m.pending) && m.pending != Nothing && SkipPending(m, s).Wait?
    ensures HoldsLittle(SkipPending(m, s), s)
  {
    hide DropVarints, VarintFrom;
    ReadVarintBounds(s);
  }

  lemma WaitsHoldLittle(cfg: Config, m: M, s: seq<byte>)
    requires Ok(cfg, m) && Step(cfg, m, s).Wait?
    ensures HoldsLittle(Step(cfg, m, s), s)
  {
    hide TakeMapped, Visit, ParseHead, Dispatch, ScopesOk, TablesOk, ReadVarint, SkipPending;
    match m.phase
    case Take(id, row) =>
      if row.Some? {
        ShortTake(m, row.value, s);
      } else {
        ShortVisit(cfg, m, id, s);
      }
    case _ =>
      if m.pending != Nothing {
        SkipHoldsLittle(m, s);
      } else if s != [] {
        ShortHead(cfg, s, Machine.Depth(m));
      }
  }

  lemma {:induction false} RunHoldsLittle(cfg: Config, m: M, s: seq<byte>)
    requires Ok(cfg, m) && Run(cfg, m, s).Wait?
    ensures HoldsLittle(Run(cfg, m, s), s)
    decreases Measure(m, s)
  {
    hide Step, Ok, Room;
    StepSound(cfg, m, s);
    Unfold(cfg, m, s);
    match Step(cfg, m, s)
    case Next(n, used) => RunHoldsLittle(cfg, n, s[used..]);
    case _ => WaitsHoldLittle(cfg, m, s);
  }

  /**
   What is held between feeds is one construct that could not complete, and
   less than all of it: a value being taken, a lone scalar, or a header.  Of a
   payload that is being skipped not one byte is held.
   */
  lemma HeldIsOneConstruct(cfg: Config, d: Chunks.Decode, chunk: seq<byte>)
    requires d.Live? && Chunks.DecodeOk(cfg, d)
    ensures
      var r := Chunks.Feed(cfg, d, chunk);
      r.Live? ==>
        && |r.held| < Room(r.m)
        && (r.m.pending.Discard? ==> r.held == [])
        && (!r.m.phase.Take? ==> |r.held| < 3 * VARINT_MAX && !r.m.pending.Limit?)
  {
    hide Step;
    if Run(cfg, d.m, d.held + chunk).Wait? {
      RunHoldsLittle(cfg, d.m, d.held + chunk);
    }
  }

  /** A value dropped over any number of chunks: the same end, the same count of bytes, the same verdict. */
  lemma {:induction false} DropAnyChunks(chunks: seq<seq<byte>>, nbytes: nat, nvarints: nat, vbytes: nat)
    requires vbytes < VARINT_MAX
    ensures DrainAll(chunks, nbytes, nvarints, vbytes) == Drain(Chunks.Flatten(chunks), nbytes, nvarints, vbytes)
    decreases |chunks|
  {
    hide Drain;
    if chunks == [] {
    } else {
      var d := Drain(chunks[0], nbytes, nvarints, vbytes);
      Chunks.DrainExtends(chunks[0], Chunks.Flatten(chunks[1..]), nbytes, nvarints, vbytes);
      DrainShape(chunks[0], nbytes, nvarints, vbytes);
      if d.end.Short? {
        DropAnyChunks(chunks[1..], d.rest.nbytes, d.rest.nvarints, d.rest.vbytes);
      }
    }
  }

  lemma DrainShape(s: seq<byte>, nbytes: nat, nvarints: nat, vbytes: nat)
    requires vbytes < VARINT_MAX
    ensures
      var d := Drain(s, nbytes, nvarints, vbytes);
      d.end.Short? ==> d.rest.Discard? && d.rest.vbytes < VARINT_MAX && d.used == |s|
  {
  }

  /** The discard counter carried from chunk to chunk. */
  function DrainAll(chunks: seq<seq<byte>>, nbytes: nat, nvarints: nat, vbytes: nat): Drained
    requires vbytes < VARINT_MAX
    decreases |chunks|
  {
    if chunks == [] then Drain([], nbytes, nvarints, vbytes)
    else
      var d := Drain(chunks[0], nbytes, nvarints, vbytes);
      DrainShape(chunks[0], nbytes, nvarints, vbytes);
      if !d.end.Short? then d
      else
        var e := DrainAll(chunks[1..], d.rest.nbytes, d.rest.nvarints, d.rest.vbytes);
        Drained(e.rest, d.used + e.used, e.end)
  }

  /**
   Skip agrees with read across chunks: the counter carried from chunk to chunk
   ends where one unbounded read of all the bytes would, over any cutting.
   */
  lemma ChunkedSkipAgrees(cfg: Config, m: M, id: nat, chunks: seq<seq<byte>>)
    requires m.visitor.Some? && Announced(m.pending) && !m.pending.Scalar? && AnyWidth(cfg, m, id)
    ensures
      var s := Chunks.Flatten(chunks);
      var read := Visit(cfg, m, id, s);
      var d := DrainAll(chunks, Extent(m.pending).0, Extent(m.pending).1, 0);
      && (read.Next? <==> d.end.Through? && !BadText(m.pending, s) && !Misplaced(cfg, m, id))
      && (BadText(m.pending, s) ==> d.end.Through?)
      && (read.Next? ==> d.used == read.used)
      && (read.Wait? <==> d.end.Short? && !Misplaced(cfg, m, id))
      && (read.Stop? <==> d.end.Bad? || BadText(m.pending, s) || Misplaced(cfg, m, id))
  {
    hide Visit, Drain, BadText, AnyWidth, Misplaced, Extent;
    SkipAgreesWithRead(cfg, m, id, Chunks.Flatten(chunks));
    DropAnyChunks(chunks, Extent(m.pending).0, Extent(m.pending).1, 0);
  }
}
