/**
 Chunking is invisible.  A step's verdict survives any bytes that follow, an
 attempt that ran out of bytes is absorbed by the next one, and so a decode
 depends on the bytes fed and not on how they were cut.
 */
module Chunks {
  import opened Wire
  import opened Message
  import opened Schema
  import opened Machine
  import opened Resets
  import Utf8
  import F = Floats

  // ----- reading ----------------------------------------------------------------

  lemma {:induction false} ElemsExtend(s: seq<byte>, ext: seq<byte>, count: nat, signed: bool, lo: int, hi: int)
    ensures
      var a, b := ReadElems(s, count, signed, lo, hi), ReadElems(s + ext, count, signed, lo, hi);
      if a.end.Short? then |a.values| <= |b.values| else a == b
    decreases count
  {
    hide ReadVarint, Cooked;
    if count > 0 {
      ReadVarintBounds(s);
      if !ReadVarint(s).More? {
        ReadVarintExtends(s, ext);
      }
      if ReadVarint(s).Got? {
        var n := ReadVarint(s).len;
        assert (s + ext)[n..] == s[n..] + ext;
        ElemsExtend(s[n..], ext, count - 1, signed, lo, hi);
      }
    }
  }

  /** One byte of a varint, dropped. */
  lemma DropByte(s: seq<byte>, left: nat, k: nat)
    requires left > 0 && k <= 9
    ensures
      var d := DropVarints(s, left, k);
      if s == [] then d == (left, k, 0, Short)
      else if k == 9 && s[0] > 1 then d == (left, k, 0, Bad)
      else
        var e := if k == 9 || s[0] < 128 then DropVarints(s[1..], left - 1, 0) else DropVarints(s[1..], left, k + 1);
        d == (e.0, e.1, e.2 + 1, e.3)
  {
  }

  lemma DropNone(s: seq<byte>, k: nat)
    requires k < VARINT_MAX
    ensures DropVarints(s, 0, k) == (0, k, 0, Through)
  {
  }

  /** Dropping in two goes drops what one go would have dropped, to the same verdict. */
  lemma {:induction false} DropExtends(s: seq<byte>, ext: seq<byte>, left: nat, vbytes: nat)
    requires vbytes < VARINT_MAX
    ensures
      var (l, v, n, end) := DropVarints(s, left, vbytes);
      if end.Short? then
        var (l2, v2, n2, end2) := DropVarints(ext, l, v);
        DropVarints(s + ext, left, vbytes) == (l2, v2, |s| + n2, end2)
      else DropVarints(s + ext, left, vbytes) == (l, v, n, end)
    decreases |s|
  {
    hide DropVarints;
    if left == 0 {
      DropNone(s, vbytes);
      DropNone(s + ext, vbytes);
    } else if s == [] {
      DropByte(s, left, vbytes);
      assert s + ext == ext;
    } else {
      DropByte(s, left, vbytes);
      DropByte(s + ext, left, vbytes);
      assert (s + ext)[0] == s[0] && (s + ext)[1..] == s[1..] + ext;
      if !(vbytes == VARINT_MAX - 1 && s[0] > 1) {
        if vbytes == VARINT_MAX - 1 || s[0] < 128 {
          DropExtends(s[1..], ext, left - 1, 0);
        } else {
          DropExtends(s[1..], ext, left, vbytes + 1);
        }
      }
    }
  }

  lemma DrainExtends(s: seq<byte>, ext: seq<byte>, nbytes: nat, nvarints: nat, vbytes: nat)
    requires vbytes < VARINT_MAX
    ensures
      var d := Drain(s, nbytes, nvarints, vbytes);
      if d.end.Short? then
        && d.rest.Discard?
        && var e := Drain(ext, d.rest.nbytes, d.rest.nvarints, d.rest.vbytes);
           Drain(s + ext, nbytes, nvarints, vbytes) == Drained(e.rest, |s| + e.used, e.end)
      else Drain(s + ext, nbytes, nvarints, vbytes) == d
  {
    if |s| < nbytes {
      if |s + ext| >= nbytes {
        assert (s + ext)[nbytes..] == ext[nbytes - |s|..];
      }
    } else {
      assert (s + ext)[nbytes..] == s[nbytes..] + ext;
      DropExtends(s[nbytes..], ext, nvarints, vbytes);
      assert ext[0..] == ext;
    }
  }

  lemma FArrayHeadExtends(cfg: Config, id: nat, s: seq<byte>, ext: seq<byte>)
    requires !FArrayHead(cfg, id, s).HeadShort?
    ensures FArrayHead(cfg, id, s + ext) == FArrayHead(cfg, id, s)
  {
    ReadVarintBounds(s);
    ReadVarintExtends(s, ext);
    if ReadVarint(s).Got? {
      var n := ReadVarint(s).len;
      assert (s + ext)[n..] == s[n..] + ext;
      if !ReadVarint(s[n..]).More? {
        ReadVarintExtends(s[n..], ext);
      }
    }
  }

  lemma HeadTailExtends(cfg: Config, wt: nat, id: nat, s: seq<byte>, ext: seq<byte>, depth: nat)
    requires !HeadTail(cfg, wt, id, s, depth).HeadShort?
    ensures HeadTail(cfg, wt, id, s + ext, depth) == HeadTail(cfg, wt, id, s, depth)
  {
    if !ReadVarint(s).More? {
      ReadVarintExtends(s, ext);
    }
    if !FArrayHead(cfg, id, s).HeadShort? {
      FArrayHeadExtends(cfg, id, s, ext);
    }
  }

  lemma ParseHeadExtends(cfg: Config, s: seq<byte>, ext: seq<byte>, depth: nat)
    requires !ParseHead(cfg, s, depth).HeadShort?
    ensures ParseHead(cfg, s + ext, depth) == ParseHead(cfg, s, depth)
  {
    ReadVarintExtends(s, ext);
    ReadVarintBounds(s);
    match ReadVarint(s)
    case Got(header, n) =>
      assert (s + ext)[n..] == s[n..] + ext;
      if header / 8 <= ID_MAX {
        HeadTailExtends(cfg, header % 8, header / 8, s[n..], ext, depth);
      }
    case _ =>
  }

  // ----- one step -----------------------------------------------------------------

  lemma Prefix(s: seq<byte>, ext: seq<byte>, len: nat)
    requires len <= |s|
    ensures (s + ext)[..len] == s[..len]
  {
  }

  lemma DropLasts(m: M, s: seq<byte>, ext: seq<byte>, nbytes: nat, nvarints: nat, vbytes: nat)
    requires vbytes < VARINT_MAX
    ensures
      var o := Drop(m, s, nbytes, nvarints, vbytes);
      if o.Wait? then
        && o.used == |s| && o.m.pending.Discard? && PendingOk(o.m.pending)
        && var p := o.m.pending;
           Drop(m, s + ext, nbytes, nvarints, vbytes) == Later(Drop(o.m, ext, p.nbytes, p.nvarints, p.vbytes), |s|)
      else Drop(m, s + ext, nbytes, nvarints, vbytes) == o
  {
    DrainExtends(s, ext, nbytes, nvarints, vbytes);
  }

  lemma SkipLasts(m: M, s: seq<byte>, ext: seq<byte>)
    requires PendingOk(m.pending) && m.pending != Nothing
    ensures
      var o := SkipPending(m, s);
      if o.Wait? then
        && o.used <= |s| && PendingOk(o.m.pending) && o.m.pending != Nothing
        && SkipPending(m, s + ext) == Later(SkipPending(o.m, s[o.used..] + ext), o.used)
      else SkipPending(m, s + ext) == o
  {
    var bare := Bare(m.pending);
    if bare.Scalar? {
      assert s[0..] == s;
      if !ReadVarint(s).More? {
        ReadVarintExtends(s, ext);
      }
    } else {
      assert s[|s|..] + ext == ext;
      if bare.Discard? {
        DropLasts(m, s, ext, bare.nbytes, bare.nvarints, bare.vbytes);
      } else {
        DropLasts(m, s, ext, Extent(bare).0, Extent(bare).1, 0);
      }
    }
  }

  lemma VisitLasts(cfg: Config, m: M, id: nat, s: seq<byte>, ext: seq<byte>)
    requires m.visitor.Some? && Announced(Bare(m.pending))
    ensures
      var o := Visit(cfg, m, id, s);
      if o.Wait? then Visit(cfg, m, id, s + ext) == Visit(cfg, o.m, id, s + ext)
      else Visit(cfg, m, id, s + ext) == o
  {
    match Bare(m.pending)
    case Scalar(_) =>
      if !ReadVarint(s).More? {
        ReadVarintExtends(s, ext);
      }
    case Payload(st, len) => VisitPayloadLasts(cfg, m, id, st, len, s, ext);
    case VArray(signed, count) => VisitIntsLasts(cfg, m, id, signed, count, s, ext);
    case FArray(st, count) => VisitFloatsLasts(cfg, m, id, st, count, s, ext);
  }

  lemma VisitPayloadLasts(cfg: Config, m: M, id: nat, st: nat, len: nat, s: seq<byte>, ext: seq<byte>)
    requires m.visitor.Some? && !Bare(m.pending).Limit?
    ensures
      var o := VisitPayload(cfg, m, id, st, len, s);
      VisitPayload(cfg, m, id, st, len, s + ext) ==
      if o.Wait? then VisitPayload(cfg, o.m, id, st, len, s + ext) else o
  {
    if len <= |s| {
      Prefix(s, ext, len);
    }
  }

  lemma VisitIntsLasts(cfg: Config, m: M, id: nat, signed: bool, count: nat, s: seq<byte>, ext: seq<byte>)
    requires m.visitor.Some? && !Bare(m.pending).Limit?
    ensures
      var o := VisitInts(cfg, m, id, signed, count, s);
      VisitInts(cfg, m, id, signed, count, s + ext) ==
      if o.Wait? then VisitInts(cfg, o.m, id, signed, count, s + ext) else o
  {
    var layout := cfg.handler.layout(m.visitor.value, m.log, id, signed, count);
    ElemsExtend(s, ext, count, signed, layout.lo, layout.hi);
  }

  lemma VisitFloatsLasts(cfg: Config, m: M, id: nat, st: nat, count: nat, s: seq<byte>, ext: seq<byte>)
    requires m.visitor.Some? && !Bare(m.pending).Limit?
    ensures
      var o := VisitFloats(cfg, m, id, st, count, s);
      VisitFloats(cfg, m, id, st, count, s + ext) ==
      if o.Wait? then VisitFloats(cfg, o.m, id, st, count, s + ext) else o
  {
    var len := F.Packed(Width(st), count);
    if len <= |s| {
      Prefix(s, ext, len);
    }
  }

  /** An option that is selected stays selected. */
  lemma SelectTwice(m: M, n: M, row: Row)
    requires SlotsOk(row, |m.words|, |m.objects|) && Select(m, row).1
    requires |n.words| == |m.words| && |n.objects| == |m.objects|
    requires row.which >= 0 ==> n.words[row.which] == Select(m, row).0.words[row.which]
    ensures Select(n, row) == (n, true)
  {
  }

  lemma SettleTwice(p: Pending, declared: int)
    requires Announced(Bare(p)) && PendingOk(p) && Settle(p, declared).Some?
    ensures Settle(Settle(p, declared).value, declared) == Settle(p, declared)
    ensures Settle(Bare(p), declared) == Some(Bare(p))
  {
  }

  predicate IsIntArray(k: Kind) {
    k.KArrayUnsigned? || k.KArraySigned? || k.KArrayBoolean?
  }

  /** The two differ at most in the `k` slots from `at`. */
  predicate SameBeside(a: seq<word>, b: seq<word>, at: nat, k: nat) {
    |a| == |b| && forall i | 0 <= i < |a| && !(at <= i < at + k) :: a[i] == b[i]
  }

  lemma FillBeside(a: seq<word>, b: seq<word>, at: nat, k: nat, values: seq<word>)
    requires SameBeside(a, b, at, k) && k <= |values| && at + |values| <= |a|
    ensures Fill(a, at, values) == Fill(b, at, values)
  {
  }

  /** Slots an attempt refills do not matter to it. */
  lemma RefillAbsorbs(m: M, n: M, row: Row, k: nat, s: seq<byte>)
    requires SlotsOk(row, |m.words|, |m.objects|) && IsIntArray(row.kind)
    requires m.pending.VArray? && m.pending.count <= row.cap && Announced(m.pending)
    requires n == m.(words := n.words) && SameBeside(m.words, n.words, row.at, k)
    requires k <= |ReadElems(s, m.pending.count, row.kind.KArraySigned?, RowLo(row), RowHi(row)).values|
    ensures TakeInts(n, row, s) == TakeInts(m, row, s)
  {
    hide ReadElems, ResetOk, Fill;
    var e := ReadElems(s, m.pending.count, row.kind.KArraySigned?, RowLo(row), RowHi(row));
    ReadElemsBounds(s, m.pending.count, row.kind.KArraySigned?, RowLo(row), RowHi(row));
    FillBeside(m.words, n.words, row.at, k, Slots(e.values));
    FillBeside(m.words, n.words, row.at, k, Truths(Slots(e.values)));
  }

  /** An attempt at an integer array: a verdict stands, a wait leaves a filled prefix behind. */
  lemma TakeIntsLasts(m: M, row: Row, s: seq<byte>, ext: seq<byte>)
    requires SlotsOk(row, |m.words|, |m.objects|) && IsIntArray(row.kind)
    requires m.pending.VArray? && m.pending.count <= row.cap && Announced(m.pending)
    ensures
      var o := TakeInts(m, row, s);
      var e := ReadElems(s, m.pending.count, row.kind.KArraySigned?, RowLo(row), RowHi(row));
      var f := ReadElems(s + ext, m.pending.count, row.kind.KArraySigned?, RowLo(row), RowHi(row));
      && row.at + |e.values| <= |m.words|
      && (!o.Wait? ==> TakeInts(m, row, s + ext) == o)
      && (o.Wait? ==> o == Wait(m.(words := Fill(m.words, row.at, Slots(e.values))), 0) && |e.values| <= |f.values|)
  {
    var count, signed, lo, hi := m.pending.count, row.kind.KArraySigned?, RowLo(row), RowHi(row);
    ElemsExtend(s, ext, count, signed, lo, hi);
    ReadElemsBounds(s, count, signed, lo, hi);
  }

  lemma TakeObjectLasts(m: M, row: Row, s: seq<byte>, ext: seq<byte>)
    requires SlotsOk(row, |m.words|, |m.objects|)
    requires IsObject(row.kind) && Bare(m.pending).Payload? && Announced(Bare(m.pending))
    ensures
      var o := TakeObject(m, row, s);
      && (o.Wait? ==> o.m == m.(pending := o.m.pending) && o.used == 0)
      && (o.Wait? ==> TakeObject(m, row, s + ext) == TakeObject(o.m, row, s + ext))
      && (!o.Wait? ==> TakeObject(m, row, s + ext) == o)
  {
    if Bare(m.pending).len <= |s| {
      Prefix(s, ext, Bare(m.pending).len);
    }
  }

  lemma TakeFixedLasts(m: M, row: Row, s: seq<byte>, ext: seq<byte>)
    requires SlotsOk(row, |m.words|, |m.objects|)
    ensures row.kind.KFloat32? || row.kind.KFloat64? ==>
      TakeFloat(m, row, s) == (if TakeFloat(m, row, s).Wait? then Wait(m, 0) else TakeFloat(m, row, s + ext))
    ensures row.kind.KUnsigned? || row.kind.KSigned? || row.kind.KBoolean? ==>
      TakeScalar(m, row, s) == (if TakeScalar(m, row, s).Wait? then Wait(m, 0) else TakeScalar(m, row, s + ext))
    ensures (row.kind.KArrayFloat32? || row.kind.KArrayFloat64?) &&
            m.pending.FArray? && m.pending.count <= row.cap && Announced(m.pending) ==>
      TakeFloats(m, row, s) == (if TakeFloats(m, row, s).Wait? then Wait(m, 0) else TakeFloats(m, row, s + ext))
  {
    if !ReadVarint(s).More? {
      ReadVarintExtends(s, ext);
    }
    if 4 <= |s| {
      Prefix(s, ext, 4);
    }
    if 8 <= |s| {
      Prefix(s, ext, 8);
    }
    if m.pending.FArray? && F.Packed(4, m.pending.count) <= |s| {
      Prefix(s, ext, F.Packed(4, m.pending.count));
    }
    if m.pending.FArray? && F.Packed(8, m.pending.count) <= |s| {
      Prefix(s, ext, F.Packed(8, m.pending.count));
    }
  }

  /** Ready to be taken: a value of the row's kind, its bound settled. */
  predicate Ready(m: M, row: Row) {
    && SlotsOk(row, |m.words|, |m.objects|) && !row.kind.KSequence?
    && PendingOk(m.pending) && Announced(Bare(m.pending)) && WireTag(row.kind) == TagOf(Bare(m.pending))
    && (IsArray(row.kind) ==> m.pending == Bare(m.pending) && Settle(m.pending, row.cap).Some?)
  }

  /** The elements at hand. */
  function Elements(row: Row, p: Pending, s: seq<byte>): Elems
    requires p.VArray?
  {
    ReadElems(s, p.count, row.kind.KArraySigned?, RowLo(row), RowHi(row))
  }

  lemma TakeReadyLasts(m: M, row: Row, s: seq<byte>, ext: seq<byte>)
    requires Ready(m, row)
    ensures
      var o := TakeReady(m, row, s);
      && (!o.Wait? ==> TakeReady(m, row, s + ext) == o)
      && (o.Wait? ==> o.used == 0 && PendingOk(o.m.pending) && o.m.pending in {m.pending, Bare(m.pending)})
      && (o.Wait? && !IsIntArray(row.kind) ==>
            o.m == m.(pending := o.m.pending) && TakeReady(o.m, row, s + ext) == TakeReady(m, row, s + ext))
  {
    if IsObject(row.kind) {
      TakeObjectLasts(m, row, s, ext);
    } else {
      TakeFixedLasts(m, row, s, ext);
      if IsIntArray(row.kind) {
        TakeIntsLasts(m, row, s, ext);
      }
    }
  }

  // ----- options over their own which slot ------------------------------------------

  /** Does the row admit an element that is not its own id? */
  predicate Varied(row: Row) {
    var low := if !row.kind.KArraySigned? then (if RowLo(row) < 0 then 0 else RowLo(row))
               else if RowLo(row) < -TWO63 then -TWO63 else RowLo(row);
    var top := if row.kind.KArraySigned? then TWO63 - 1 else TWO64 - 1;
    var high := if RowHi(row) < top then RowHi(row) else top;
    low <= high && !(low == high == row.id)
  }

  /** Does the option's reset write anything beside the slots up to its which slot? */
  predicate ResetsBeside(row: Row) {
    row.reset.objects != [] || row.reset.into != [] ||
    exists i | 0 <= i < |row.reset.words| :: !(row.at <= row.reset.words[i].0 <= row.which)
  }

  /**
   An array option laid over its own which slot so that elements can be stored
   there with more of them to come.  An attempt that waits behind such an
   element leaves it where the option's id was, and the next attempt takes the
   option for a new one and resets it again.
   */
  predicate Overlaid(row: Row) {
    && IsIntArray(row.kind)
    && row.which >= 0 && row.at <= row.which
    && row.which + 1 < row.at + row.cap && row.which + 1 < row.at + ARRAY_MAX
    && ResetsBeside(row) && Varied(row)
  }

  /** How many slots lie from the first element to the which slot. */
  function Reach(row: Row): nat {
    if row.which >= row.at then row.which + 1 - row.at else 0
  }

  /** Would the option's reset, replayed over this storage, be refused or change anything beside those slots? */
  predicate Shows(row: Row, words: seq<word>, objects: seq<Obj>)
    requires SlotsOk(row, |words|, |objects|)
  {
    var (copied, fits) := ResetInto(ResetObjects(objects, row.reset.objects), row.reset.into);
    !fits || copied != objects || !SameBeside(words, ResetWords(words, row.reset.words), row.at, Reach(row))
  }

  /**
   The one state in which an attempt that waits is not absorbed by the next: an
   overlaid option that is the one held, so that it starts unreset; more
   elements to come than reach the which slot; and a slot elsewhere that is not
   at its reset value, so that the reset of the next attempt shows.
   */
  predicate Stirring(m: M, row: Row)
    requires SlotsOk(row, |m.words|, |m.objects|)
  {
    && Overlaid(row) && m.words[row.which] == row.id && Shows(row, m.words, m.objects)
    && Bare(m.pending).VArray? && row.which - row.at + 1 < Bare(m.pending).count <= row.cap
  }

  lemma ElementVaries(row: Row, v: int)
    requires RowLo(row) <= v <= RowHi(row) && ValueOk(row.kind.KArraySigned?, v) && row.id <= ID_MAX
    requires Slot(v) != row.id
    ensures Varied(row)
  {
  }

  /** Selecting the option again behind a filled prefix changes at most slots of that prefix. */
  lemma SelectAgain(m: M, row: Row, s: seq<byte>)
    requires Ready(m, row) && IsIntArray(row.kind) && !Stirring(m, row)
    requires row.which >= 0 ==> m.words[row.which] == row.id
    requires TakeInts(m, row, s).Wait?
    ensures
      var o := TakeInts(m, row, s);
      var (n, fits) := Select(o.m, row);
      fits && n == m.(words := n.words) && SameBeside(m.words, n.words, row.at, |Elements(row, m.pending, s).values|)
  {
    hide ReadElems, Select, ResetOk, ResetsBeside, Varied, Fill, RowLo, RowHi, Shows;
    var e := Elements(row, m.pending, s);
    ReadElemsBounds(s, m.pending.count, row.kind.KArraySigned?, RowLo(row), RowHi(row));
    TakeIntsLasts(m, row, s, []);
    var o := TakeInts(m, row, s);
    ShortIsBehind(s, m.pending.count, row.kind.KArraySigned?, RowLo(row), RowHi(row));
    hide TakeInts;
    FillKeeps(m.words, row.at, Slots(e.values));
    if row.which < 0 || o.m.words[row.which] == row.id {
      SelectTwiceHere(o.m, row);
    } else {
      var j := row.which - row.at;
      assert 0 <= j < |e.values| && o.m.words[row.at + j] == Slots(e.values)[j];
      ElementVaries(row, e.values[j]);
      if ResetsBeside(row) {
        ResetQuiet(m, o.m, row, |e.values|);
      } else {
        ResetInside(o.m, row);
      }
    }
  }

  /** A reset that would not show does not show behind a filled range either. */
  lemma ResetQuiet(m: M, n: M, row: Row, k: nat)
    requires SlotsOk(row, |m.words|, |m.objects|) && row.which >= row.at && !Shows(row, m.words, m.objects)
    requires n == m.(words := n.words) && SameBeside(m.words, n.words, row.at, k) && k >= Reach(row)
    ensures
      var (again, fits) := Select(n, row);
      fits && again == m.(words := again.words) && SameBeside(m.words, again.words, row.at, k)
  {
    hide ResetWords, ResetObjects, ResetInto;
    var (again, fits) := Select(n, row);
    forall a | 0 <= a < |m.words| && !(row.at <= a < row.at + k)
      ensures fits ==> again.words[a] == m.words[a]
    {
      SelectedWord(n, row, a);
      WordAt(m.words, row.reset.words, a);
    }
  }

  /** An option that has just been reset is at its reset values. */
  lemma ResetRests(m: M, row: Row)
    requires SlotsOk(row, |m.words|, |m.objects|) && row.which >= row.at && m.words[row.which] != row.id
    requires Select(m, row).1
    ensures !Shows(row, Select(m, row).0.words, Select(m, row).0.objects)
  {
    hide ResetWords, ResetObjects, ResetInto;
    var n := Select(m, row).0;
    forall a | 0 <= a < |m.words| && !(row.at <= a < row.at + Reach(row))
      ensures ResetWords(n.words, row.reset.words)[a] == n.words[a]
    {
      SelectedWord(m, row, a);
      WordAt(n.words, row.reset.words, a);
    }
    ObjectsRest(m.objects, row.reset.objects, row.reset.into);
  }


  lemma SelectTwiceHere(m: M, row: Row)
    requires SlotsOk(row, |m.words|, |m.objects|) && (row.which >= 0 ==> m.words[row.which] == row.id)
    ensures Select(m, row) == (m, true)
  {
  }

  lemma FillKeeps(words: seq<word>, at: nat, values: seq<word>)
    requires at + |values| <= |words|
    ensures SameBeside(words, Fill(words, at, values), at, |values|)
    ensures forall i | 0 <= i < |values| :: Fill(words, at, values)[at + i] == values[i]
  {
  }

  lemma {:induction false} ShortIsBehind(s: seq<byte>, count: nat, signed: bool, lo: int, hi: int)
    requires ReadElems(s, count, signed, lo, hi).end.Short?
    ensures |ReadElems(s, count, signed, lo, hi).values| < count
    decreases count
  {
    if ReadVarint(s).Got? {
      ReadVarintBounds(s);
      ShortIsBehind(s[ReadVarint(s).len..], count - 1, signed, lo, hi);
    }
  }

  lemma ResetInside(m: M, row: Row)
    requires SlotsOk(row, |m.words|, |m.objects|) && row.which >= row.at && !ResetsBeside(row)
    ensures
      var (n, fits) := Select(m, row);
      fits && n == m.(words := n.words) && SameBeside(m.words, n.words, row.at, row.which + 1 - row.at)
  {
    var (n, fits) := Select(m, row);
    forall a | 0 <= a < |m.words| && !(row.at <= a <= row.which)
      ensures fits ==> n.words[a] == m.words[a]
    {
      SelectedWord(m, row, a);
    }
  }

  /** An attempt at a bound value that ended keeps its verdict, whatever bytes follow. */
  lemma TakeMappedStands(m: M, row: Row, s: seq<byte>, ext: seq<byte>)
    requires Takable(m, row) && !TakeMapped(m, row, s).Wait?
    ensures TakeMapped(m, row, s + ext) == TakeMapped(m, row, s)
  {
    hide Select, TakeReady;
    var (picked, fits) := Select(m, row);
    var settled := Settle(m.pending, row.Declared());
    if fits && settled.Some? {
      TakeReadyLasts(picked.(pending := settled.value), row, s, ext);
    }
  }

  lemma ReadyIsInts(m: M, row: Row, s: seq<byte>)
    requires Ready(m, row) && IsIntArray(row.kind)
    ensures m.pending.VArray? && m.pending.count <= row.cap && Announced(m.pending)
    ensures TakeReady(m, row, s) == TakeInts(m, row, s)
  {
  }

  /** The integer array's share of the law below. */
  lemma IntsAbsorbed(m: M, row: Row, s: seq<byte>, ext: seq<byte>)
    requires Ready(m, row) && IsIntArray(row.kind) && !Stirring(m, row)
    requires row.which >= 0 ==> m.words[row.which] == row.id
    requires TakeReady(m, row, s).Wait?
    ensures
      var o := TakeReady(m, row, s);
      && |o.m.words| == |m.words| && |o.m.objects| == |m.objects| && o.m.pending == m.pending
      && Select(o.m, row).1 && Select(o.m, row).0.pending == m.pending
      && Ready(Select(o.m, row).0, row)
      && TakeReady(Select(o.m, row).0, row, s + ext) == TakeReady(m, row, s + ext)
  {
    hide TakeReady, TakeInts, Select, Overlaid, Shows, ReadElems, SlotsOk;
    ReadyIsInts(m, row, s);
    ReadyIsInts(m, row, s + ext);
    TakeIntsLasts(m, row, s, ext);
    SelectAgain(m, row, s);
    var n := Select(TakeInts(m, row, s).m, row).0;
    ReadyIsInts(n, row, s + ext);
    RefillAbsorbs(m, n, row, |Elements(row, m.pending, s).values|, s + ext);
  }

  /**
   An attempt at a bound value that waited is absorbed by the next: the option
   is selected, the bound settled and the elements refilled as in one attempt.
   */
  lemma TakeMappedAbsorbed(m: M, row: Row, s: seq<byte>, ext: seq<byte>)
    requires Takable(m, row) && !Stirring(m, row) && TakeMapped(m, row, s).Wait?
    ensures
      var o := TakeMapped(m, row, s);
      o.used == 0 && Takable(o.m, row) && TakeMapped(o.m, row, s + ext) == TakeMapped(m, row, s + ext)
  {
    hide Select, TakeReady, SlotsOk, Overlaid, Shows;
    var (picked, fits) := Select(m, row);
    var settled := Settle(m.pending, row.Declared());
    var ready := picked.(pending := settled.value);
    var o := TakeReady(ready, row, s);
    SettleTwice(m.pending, row.Declared());
    TakeReadyLasts(ready, row, s, ext);
    SelectedHolds(m, row);
    if IsIntArray(row.kind) {
      StillCalm(m, ready, row);
      IntsAbsorbed(ready, row, s, ext);
      var n := Select(o.m, row).0;
      assert n.(pending := ready.pending) == n;
    } else {
      SelectTwice(m, o.m, row);
      assert o.m.(pending := o.m.pending) == o.m;
    }
  }

  /** Selecting the option and settling the bound stirs nothing up. */
  lemma StillCalm(m: M, ready: M, row: Row)
    requires SlotsOk(row, |m.words|, |m.objects|) && Select(m, row).1 && !Stirring(m, row)
    requires ready == Select(m, row).0.(pending := ready.pending) && Bare(ready.pending) == Bare(m.pending)
    ensures !Stirring(ready, row)
  {
    hide Shows, ResetWords, ResetObjects, ResetInto, ResetOk;
    if Overlaid(row) && m.words[row.which] != row.id {
      ResetRests(m, row);
    }
  }

  predicate Takable(m: M, row: Row) {
    && SlotsOk(row, |m.words|, |m.objects|) && !row.kind.KSequence?
    && PendingOk(m.pending) && Announced(Bare(m.pending))
    && WireTag(row.kind) == TagOf(Bare(m.pending))
  }

  lemma SelectedHolds(m: M, row: Row)
    requires SlotsOk(row, |m.words|, |m.objects|) && Select(m, row).1
    ensures row.which >= 0 ==> Select(m, row).0.words[row.which] == row.id
  {
  }

  // ----- suspended values -------------------------------------------------------------

  /**
   A value whose attempt has already done all it can do without more bytes.
   Of integer arrays nothing is said: nobody asks whether their bytes are there.
   */
  predicate Suspended(cfg: Config, m: M)
    requires Ok(cfg, m)
  {
    m.phase.Take? && (Bare(m.pending).VArray? || Step(cfg, m, []) == Wait(m, 0))
  }

  lemma ReadySuspends(m: M, row: Row, s: seq<byte>)
    requires Ready(m, row) && !IsIntArray(row.kind) && TakeReady(m, row, s).Wait?
    ensures TakeReady(TakeReady(m, row, s).m, row, []) == Wait(TakeReady(m, row, s).m, 0)
  {
  }

  lemma MappedSuspends(m: M, row: Row, s: seq<byte>)
    requires Takable(m, row) && !IsIntArray(row.kind) && TakeMapped(m, row, s).Wait?
    ensures
      var n := TakeMapped(m, row, s).m;
      PendingOk(n.pending) && TakeMapped(n, row, []) == Wait(n, 0)
  {
    hide TakeReady, Select, SlotsOk;
    var (picked, fits) := Select(m, row);
    var ready := picked.(pending := Settle(m.pending, row.Declared()).value);
    SettleTwice(m.pending, row.Declared());
    TakeReadyLasts(ready, row, s, []);
    ReadySuspends(ready, row, s);
    var n := TakeReady(ready, row, s).m;
    SelectTwice(m, n, row);
    assert n.(pending := n.pending) == n;
  }

  lemma VisitSuspends(cfg: Config, m: M, id: nat, s: seq<byte>)
    requires m.visitor.Some? && Announced(Bare(m.pending))
    requires Visit(cfg, m, id, s).Wait?
    ensures Visit(cfg, Visit(cfg, m, id, s).m, id, []) == Wait(Visit(cfg, m, id, s).m, 0)
  {
  }

  /** Whatever attempt waited, its outcome is a suspended value. */
  lemma AttemptSuspends(cfg: Config, m: M, s: seq<byte>)
    requires Ok(cfg, m) && m.phase.Take? && Step(cfg, m, s).Wait?
    ensures Ok(cfg, Step(cfg, m, s).m) && Suspended(cfg, Step(cfg, m, s).m)
  {
    hide TakeMapped, Visit, ScopesOk, TablesOk;
    StepSound(cfg, m, s);
    if m.phase.row.Some? {
      if !IsIntArray(m.phase.row.value.kind) {
        MappedSuspends(m, m.phase.row.value, s);
      }
    } else {
      VisitSuspends(cfg, m, m.phase.id, s);
    }
  }

  /** The payload bytes a fixed-size value needs. */
  function Needs(p: Pending): nat {
    match p
    case Payload(_, len) => len
    case FArray(st, count) => F.Packed(Width(st), count)
    case _ => 0
  }

  /** Retrying before all the bytes are there changes nothing. */
  lemma NotReady(cfg: Config, m: M, s: seq<byte>)
    requires Ok(cfg, m) && Suspended(cfg, m) && |s| < Needs(m.pending)
    ensures Step(cfg, m, s) == Wait(m, 0)
  {
    if m.phase.row.Some? {
      var row := m.phase.row.value;
      var (picked, fits) := Select(m, row);
      assert TakeMapped(m, row, []) == Wait(m, 0);
      var ready := picked.(pending := Settle(m.pending, row.Declared()).value);
      ReadyNeeds(ready, row, s);
    } else {
      VisitNeeds(cfg, m, m.phase.id, s);
    }
  }

  lemma ReadyNeeds(m: M, row: Row, s: seq<byte>)
    requires SlotsOk(row, |m.words|, |m.objects|) && !row.kind.KSequence?
    requires PendingOk(m.pending) && Announced(Bare(m.pending)) && WireTag(row.kind) == TagOf(Bare(m.pending))
    requires IsArray(row.kind) ==> m.pending == Bare(m.pending) && Settle(m.pending, row.cap).Some?
    requires |s| < Needs(Bare(m.pending))
    ensures TakeReady(m, row, s) == TakeReady(m, row, [])
  {
  }

  lemma VisitNeeds(cfg: Config, m: M, id: nat, s: seq<byte>)
    requires m.visitor.Some? && Announced(Bare(m.pending)) && |s| < Needs(Bare(m.pending))
    ensures Visit(cfg, m, id, s) == Visit(cfg, m, id, [])
  {
  }

  // ----- one step, any phase ------------------------------------------------------------

  /** A verdict stands, whatever bytes follow. */
  predicate Stands(cfg: Config, m: M, s: seq<byte>, ext: seq<byte>)
    requires Ok(cfg, m)
  {
    !Step(cfg, m, s).Wait? ==> Step(cfg, m, s + ext) == Step(cfg, m, s)
  }

  /** An attempt that waited is absorbed by the next. */
  predicate Absorbed(cfg: Config, m: M, s: seq<byte>, ext: seq<byte>)
    requires Ok(cfg, m)
  {
    var o := Step(cfg, m, s);
    o.Wait? ==>
      && Ok(cfg, o.m) && o.used <= |s|
      && Step(cfg, m, s + ext) == Later(Step(cfg, o.m, s[o.used..] + ext), o.used)
  }

  /** No array option the decode can meet lies over its own which slot. */
  predicate Unlaid(cfg: Config) {
    cfg.tabled ==> forall t, id | 0 <= t < |cfg.tables| && id in cfg.tables[t].rows :: !Overlaid(cfg.tables[t].rows[id])
  }

  /** A field whose attempt, if it waits, would not be absorbed. */
  predicate Stirs(cfg: Config, m: M)
    requires Ok(cfg, m)
  {
    m.phase.Take? && m.phase.row.Some? && Stirring(m, m.phase.row.value)
  }

  lemma RowTakable(cfg: Config, m: M)
    requires Ok(cfg, m) && m.phase.Take?
    ensures m.phase.row.Some? ==> Takable(m, m.phase.row.value)
    ensures m.phase.row.Some? && Unlaid(cfg) ==> !Overlaid(m.phase.row.value)
    ensures Unlaid(cfg) ==> !Stirs(cfg, m)
  {
    hide Overlaid, ScopesOk, SlotsOk, Shows;
  }

  lemma TakeLasts(cfg: Config, m: M, s: seq<byte>, ext: seq<byte>)
    requires Ok(cfg, m) && m.phase.Take?
    ensures Stands(cfg, m, s, ext)
    ensures !Stirs(cfg, m) ==> Absorbed(cfg, m, s, ext)
  {
    hide TakeMapped, Visit, Stirring, ScopesOk, TablesOk, SlotsOk, Unlaid;
    StepSound(cfg, m, s);
    RowTakable(cfg, m);
    assert s[0..] == s;
    if m.phase.row.None? {
      VisitLasts(cfg, m, m.phase.id, s, ext);
    } else if !Step(cfg, m, s).Wait? {
      TakeMappedStands(m, m.phase.row.value, s, ext);
    } else if !Stirs(cfg, m) {
      TakeMappedAbsorbed(m, m.phase.row.value, s, ext);
    }
  }

  lemma DiscardLasts(cfg: Config, m: M, s: seq<byte>, ext: seq<byte>)
    requires Ok(cfg, m) && !m.phase.Take? && m.pending != Nothing
    ensures Stands(cfg, m, s, ext) && Absorbed(cfg, m, s, ext)
  {
    hide Step, SkipPending, ScopesOk, TablesOk;
    StepSound(cfg, m, s);
    SkipLasts(m, s, ext);
    StepIsSkip(cfg, m, s);
    StepIsSkip(cfg, m, s + ext);
    var o := Step(cfg, m, s);
    if o.Wait? {
      StepIsSkip(cfg, o.m, s[o.used..] + ext);
    }
  }

  lemma StepIsSkip(cfg: Config, m: M, s: seq<byte>)
    requires Ok(cfg, m) && !m.phase.Take? && m.pending != Nothing
    ensures Step(cfg, m, s) == SkipPending(m, s)
    ensures SkipPending(m, s).m.phase == m.phase
  {
    hide ReadVarint, DropVarints;
  }

  lemma HeadLasts(cfg: Config, m: M, s: seq<byte>, ext: seq<byte>)
    requires Ok(cfg, m) && !m.phase.Take? && m.pending == Nothing
    ensures Stands(cfg, m, s, ext) && Absorbed(cfg, m, s, ext)
  {
    hide Dispatch, ParseHead;
    assert s[0..] == s;
    if s != [] && !ParseHead(cfg, s, Depth(m)).HeadShort? {
      ParseHeadExtends(cfg, s, ext, Depth(m));
      StepSound(cfg, m, s);
    } else {
      assert Step(cfg, m, s) == Wait(m, 0);
    }
  }

  /**
   One step: a verdict stands whatever follows; and except in the one state
   above, an unfinished attempt is absorbed by the next.
   */
  lemma StepLasts(cfg: Config, m: M, s: seq<byte>, ext: seq<byte>)
    requires Ok(cfg, m)
    ensures Stands(cfg, m, s, ext)
    ensures !Stirs(cfg, m) ==> Absorbed(cfg, m, s, ext)
  {
    hide Step, Ok, Stands, Absorbed;
    if m.phase.Take? {
      TakeLasts(cfg, m, s, ext);
    } else if m.pending != Nothing {
      DiscardLasts(cfg, m, s, ext);
    } else {
      HeadLasts(cfg, m, s, ext);
    }
  }

  lemma LaterLater(o: Out, i: nat, j: nat)
    ensures Later(Later(o, i), j) == Later(o, i + j)
  {
  }

  /** Does the run from `m` over `s` come through `n`, with `t` left to read? */
  predicate Visits(cfg: Config, m: M, s: seq<byte>, n: M, t: seq<byte>)
    requires Ok(cfg, m)
    decreases Measure(m, s)
  {
    StepSound(cfg, m, s);
    || (n == m && t == s)
    || match Step(cfg, m, s)
       case Next(q, used) => Visits(cfg, q, s[used..], n, t)
       case _ => false
  }

  /** The attempt a run waits in, if it waits, is absorbed by the next. */
  predicate Resumes(cfg: Config, m: M, s: seq<byte>, ext: seq<byte>)
    requires Ok(cfg, m)
    decreases Measure(m, s)
  {
    StepSound(cfg, m, s);
    match Step(cfg, m, s)
    case Next(n, used) => Resumes(cfg, n, s[used..], ext)
    case Wait(_, _) => Absorbed(cfg, m, s, ext)
    case Stop(_, _) => true
  }

  /** Then its verdict stands, or the run can be taken up where it waited. */
  lemma {:induction false} RunResumes(cfg: Config, m: M, s: seq<byte>, ext: seq<byte>)
    requires Ok(cfg, m) && Resumes(cfg, m, s, ext)
    ensures
      var o := Run(cfg, m, s);
      Run(cfg, m, s + ext) == if o.Wait? then Later(Run(cfg, o.m, s[o.used..] + ext), o.used) else o
    decreases Measure(m, s)
  {
    hide Step;
    StepSound(cfg, m, s);
    StepLasts(cfg, m, s, ext);
    match Step(cfg, m, s)
    case Next(n, used) =>
      RunResumes(cfg, n, s[used..], ext);
      assert (s + ext)[used..] == s[used..] + ext;
      var o := Run(cfg, n, s[used..]);
      if o.Wait? {
        assert s[used..][o.used..] == s[used + o.used..];
        LaterLater(Run(cfg, o.m, s[used + o.used..] + ext), o.used, used);
      }
    case Wait(n, used) =>
      UnfoldLater(cfg, m, n, s + ext, s[used..] + ext, used);
    case Stop(_, _) =>
  }

  /** On tables without an overlaid option every run does. */
  lemma {:induction false} UnlaidResumes(cfg: Config, m: M, s: seq<byte>, ext: seq<byte>)
    requires Ok(cfg, m) && Unlaid(cfg)
    ensures Resumes(cfg, m, s, ext)
    decreases Measure(m, s)
  {
    hide Step, Ok, Absorbed, Stirs, Unlaid;
    StepSound(cfg, m, s);
    StepLasts(cfg, m, s, ext);
    UnlaidIsCalm(cfg, m);
    match Step(cfg, m, s)
    case Next(n, used) => UnlaidResumes(cfg, n, s[used..], ext);
    case _ =>
  }

  lemma UnlaidIsCalm(cfg: Config, m: M)
    requires Ok(cfg, m) && Unlaid(cfg)
    ensures !Stirs(cfg, m)
  {
    hide Overlaid, ScopesOk, SlotsOk, Shows;
    if m.phase.Take? {
      RowTakable(cfg, m);
    }
  }

  /** A whole run: its verdict stands, or it can be taken up where it waited. */
  lemma RunLasts(cfg: Config, m: M, s: seq<byte>, ext: seq<byte>)
    requires Ok(cfg, m) && Unlaid(cfg)
    ensures
      var o := Run(cfg, m, s);
      Run(cfg, m, s + ext) == if o.Wait? then Later(Run(cfg, o.m, s[o.used..] + ext), o.used) else o
  {
    hide Run, Resumes, Unlaid;
    UnlaidResumes(cfg, m, s, ext);
    RunResumes(cfg, m, s, ext);
  }

  /** Two machines whose first steps agree run alike. */
  lemma UnfoldLater(cfg: Config, m: M, n: M, s: seq<byte>, t: seq<byte>, k: nat)
    requires Ok(cfg, m) && Ok(cfg, n)
    requires k <= |s| && t == s[k..]
    requires Step(cfg, m, s) == Later(Step(cfg, n, t), k)
    ensures Run(cfg, m, s) == Later(Run(cfg, n, t), k)
  {
    hide Step, Ok;
    Unfold(cfg, m, s);
    Unfold(cfg, n, t);
    match Step(cfg, n, t)
    case Next(q, used) =>
      assert t[used..] == s[used + k..];
      LaterLater(Run(cfg, q, t[used..]), used, k);
    case _ =>
  }

  /** Waiting delivers nothing. */
  lemma WaitIsSilent(cfg: Config, m: M, s: seq<byte>)
    requires Ok(cfg, m) && Step(cfg, m, s).Wait?
    ensures Step(cfg, m, s).m.log == m.log
  {
    hide ParseHead, Dispatch, ReadVarint, ReadElems, SlotsOk, ScopesOk, TablesOk, Select, Utf8.Valid;
  }

  /**
   On any tables at all: a run over a prefix delivers a prefix of what the
   whole delivers, and its verdict is the verdict on the whole.
   */
  lemma {:induction false} RunPrefix(cfg: Config, m: M, s: seq<byte>, ext: seq<byte>)
    requires Ok(cfg, m)
    ensures Run(cfg, m, s).m.log <= Run(cfg, m, s + ext).m.log
    ensures Run(cfg, m, s).Stop? ==> Run(cfg, m, s + ext) == Run(cfg, m, s)
    decreases Measure(m, s)
  {
    hide Step, Ok, Unlaid;
    StepSound(cfg, m, s);
    StepLasts(cfg, m, s, ext);
    Unfold(cfg, m, s);
    Unfold(cfg, m, s + ext);
    match Step(cfg, m, s)
    case Next(n, used) =>
      RunPrefix(cfg, n, s[used..], ext);
      assert (s + ext)[used..] == s[used..] + ext;
    case Wait(_, _) =>
      WaitIsSilent(cfg, m, s);
      RunLogGrows(cfg, m, s + ext);
    case Stop(_, _) =>
  }

  lemma {:induction false} RunLogGrows(cfg: Config, m: M, s: seq<byte>)
    requires Ok(cfg, m)
    ensures m.log <= Run(cfg, m, s).m.log
    decreases Measure(m, s)
  {
    hide Step;
    StepSound(cfg, m, s);
    match Step(cfg, m, s)
    case Next(n, used) => RunLogGrows(cfg, n, s[used..]);
    case _ =>
  }

  // ----- feeds ----------------------------------------------------------------------

  /** What a decode that ended leaves behind. */
  datatype Remains = Remains(words: seq<word>, objects: seq<Obj>, log: seq<Call>)

  /** Between feeds: the machine and the unconsumed bytes, or the latched end. */
  datatype Decode = Live(m: M, held: seq<byte>) | Dead(left: Remains, why: Why)

  datatype Status = Complete | Incomplete | Ended(why: Why)

  predicate DecodeOk(cfg: Config, d: Decode) {
    d.Live? ==> Ok(cfg, d.m)
  }

  /** Takes a chunk; nothing is consumed any more once the decode has ended. */
  function Feed(cfg: Config, d: Decode, chunk: seq<byte>): (r: Decode)
    requires DecodeOk(cfg, d)
    ensures DecodeOk(cfg, r)
  {
    if d.Dead? then d
    else Settled(Run(cfg, d.m, d.held + chunk), d.held + chunk)
  }

  function Settled(o: Out, s: seq<byte>): Decode
    requires o.Wait? ==> o.used <= |s|
  {
    match o
    case Wait(n, used) => Live(n, s[used..])
    case Stop(n, why) => Dead(Remains(n.words, n.objects, n.log), why)
    case Next(n, _) => Live(n, s)
  }

  /** COMPLETE says the bytes so far end at a field boundary with every sequence closed. */
  function StatusOf(d: Decode): Status {
    match d
    case Live(m, held) =>
      if held == [] && m.phase == Walk && m.pending == Nothing && m.scopes == [] then Complete else Incomplete
    case Dead(_, why) => Ended(why)
  }

  function Log(d: Decode): seq<Call> {
    if d.Live? then d.m.log else d.left.log
  }

  function FeedAll(cfg: Config, d: Decode, chunks: seq<seq<byte>>): (r: Decode)
    requires DecodeOk(cfg, d)
    ensures DecodeOk(cfg, r)
    decreases |chunks|
  {
    if chunks == [] then d else FeedAll(cfg, Feed(cfg, d, chunks[0]), chunks[1..])
  }

  function Flatten(chunks: seq<seq<byte>>): seq<byte> {
    if chunks == [] then [] else chunks[0] + Flatten(chunks[1..])
  }

  lemma Behind(s: seq<byte>, b: seq<byte>, i: nat, j: nat)
    requires i <= |s| && i + j <= |s + b|
    ensures (s + b)[i + j..] == (s[i..] + b)[j..]
  {
    assert (s + b)[i..] == s[i..] + b;
  }

  /** Two feeds in a row are one feed of both chunks, where the first can be taken up. */
  lemma FeedResumes(cfg: Config, d: Decode, a: seq<byte>, b: seq<byte>)
    requires DecodeOk(cfg, d) && (d.Live? ==> Resumes(cfg, d.m, d.held + a, b))
    ensures Feed(cfg, Feed(cfg, d, a), b) == Feed(cfg, d, a + b)
  {
    hide Run, Ok, Resumes;
    if d.Live? {
      var s := d.held + a;
      var o := Run(cfg, d.m, s);
      RunResumes(cfg, d.m, s, b);
      assert s + b == d.held + (a + b);
      if o.Wait? {
        var p := Run(cfg, o.m, s[o.used..] + b);
        if p.Wait? {
          Behind(s, b, o.used, p.used);
        }
      }
    }
  }

  lemma FeedTwice(cfg: Config, d: Decode, a: seq<byte>, b: seq<byte>)
    requires DecodeOk(cfg, d) && Unlaid(cfg)
    ensures Feed(cfg, Feed(cfg, d, a), b) == Feed(cfg, d, a + b)
  {
    hide Run, Resumes, Unlaid, Feed;
    if d.Live? {
      UnlaidResumes(cfg, d.m, d.held + a, b);
    }
    FeedResumes(cfg, d, a, b);
  }

  /**
   Chunking is invisible: however a byte string is cut into one or more feeds,
   the events and their order, the slots, the open scopes, the bytes still held
   and the outcome are those of a single feed.  `Overlays.DecodesIff` has the
   exact condition for whole decodes, `Exposure.ExposedIff` tells it from the
   tables, and `Shadows.ControlInvisible` shows that without any condition
   nothing but slots can differ.
   */
  lemma {:induction false} ChunkingInvisible(cfg: Config, d: Decode, chunks: seq<seq<byte>>)
    requires DecodeOk(cfg, d) && chunks != [] && Unlaid(cfg)
    ensures FeedAll(cfg, d, chunks) == Feed(cfg, d, Flatten(chunks))
    decreases |chunks|
  {
    var first, rest := chunks[0], chunks[1..];
    if rest == [] {
      assert Flatten(rest) == [] && first + [] == first;
    } else {
      ChunkingInvisible(cfg, Feed(cfg, d, first), rest);
      FeedTwice(cfg, d, first, Flatten(rest));
    }
  }

  /** Cutting the same bytes in two ways makes no difference either. */
  lemma AnyTwoCuttings(cfg: Config, d: Decode, chunks: seq<seq<byte>>, others: seq<seq<byte>>)
    requires DecodeOk(cfg, d) && chunks != [] && others != [] && Unlaid(cfg)
    requires Flatten(chunks) == Flatten(others)
    ensures FeedAll(cfg, d, chunks) == FeedAll(cfg, d, others)
    ensures StatusOf(FeedAll(cfg, d, chunks)) == StatusOf(FeedAll(cfg, d, others))
  {
    ChunkingInvisible(cfg, d, chunks);
    ChunkingInvisible(cfg, d, others);
  }

  /**
   On any tables at all: what a prefix of the bytes has delivered is a prefix
   of what the whole delivers, and a verdict reached on the prefix is the
   verdict on every extension of it.
   */
  lemma PrefixesAgree(cfg: Config, d: Decode, a: seq<byte>, b: seq<byte>)
    requires DecodeOk(cfg, d)
    ensures Log(Feed(cfg, d, a)) <= Log(Feed(cfg, d, a + b))
    ensures StatusOf(Feed(cfg, d, a)).Ended? ==> Feed(cfg, d, a + b) == Feed(cfg, d, a)
  {
    hide Run;
    if d.Live? {
      RunPrefix(cfg, d.m, d.held + a, b);
      assert d.held + a + b == d.held + (a + b);
    }
  }
}
