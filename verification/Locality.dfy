/**
 A step takes no notice of bytes beyond those it uses: an attempt that waits
 over some bytes uses more than those where it does not wait.  So whatever a
 run comes through over one message it comes through over every message that
 starts with the bytes used up to there.
 */
module Locality {
  import opened Wire
  import opened Message
  import opened Schema
  import opened Machine
  import opened Chunks
  import F = Floats
  import Utf8

  lemma {:induction false} VarintMore(s: seq<byte>, ext: seq<byte>, k: nat)
    requires k <= 9 && VarintFrom(s, k).More? && VarintFrom(s + ext, k).Got?
    ensures VarintFrom(s + ext, k).len > |s|
    decreases 9 - k
  {
    if s != [] {
      assert (s + ext)[1..] == s[1..] + ext;
      VarintMore(s[1..], ext, k + 1);
    }
  }

  lemma ReadMore(s: seq<byte>, ext: seq<byte>)
    requires ReadVarint(s).More? && ReadVarint(s + ext).Got?
    ensures ReadVarint(s + ext).len > |s|
  {
    VarintMore(s, ext, 0);
  }

  /** Behind a word that was there, more is needed of what follows it. */
  lemma TailMore(s: seq<byte>, ext: seq<byte>, n: nat)
    requires n <= |s|
    ensures (s + ext)[n..] == s[n..] + ext
  {
  }

  lemma FArrayMore(cfg: Config, id: nat, s: seq<byte>, ext: seq<byte>)
    requires FArrayHead(cfg, id, s).HeadShort? && FArrayHead(cfg, id, s + ext).Head?
    ensures FArrayHead(cfg, id, s + ext).used > |s|
  {
    hide VarintFrom;
    ReadVarintBounds(s);
    ReadVarintBounds(s + ext);
    if ReadVarint(s).More? {
      ReadMore(s, ext);
    } else {
      ReadVarintExtends(s, ext);
      var n := ReadVarint(s).len;
      TailMore(s, ext, n);
      if ReadVarint(s[n..]).More? {
        ReadMore(s[n..], ext);
      } else {
        ReadVarintExtends(s[n..], ext);
      }
    }
  }

  lemma TailNeedsMore(cfg: Config, wt: nat, id: nat, s: seq<byte>, ext: seq<byte>, depth: nat)
    requires HeadTail(cfg, wt, id, s, depth).HeadShort? && HeadTail(cfg, wt, id, s + ext, depth).Head?
    ensures HeadTail(cfg, wt, id, s + ext, depth).used > |s|
  {
    hide ReadVarint;
    if wt == ARRAY_FIXLEN {
      FArrayMore(cfg, id, s, ext);
    } else if ReadVarint(s).More? && ReadVarint(s + ext).Got? {
      ReadMore(s, ext);
    } else if !ReadVarint(s).More? {
      ReadVarintExtends(s, ext);
    }
  }

  lemma HeadMore(cfg: Config, s: seq<byte>, ext: seq<byte>, depth: nat)
    requires ParseHead(cfg, s, depth).HeadShort? && ParseHead(cfg, s + ext, depth).Head?
    ensures ParseHead(cfg, s + ext, depth).used > |s|
  {
    hide ReadVarint, HeadTail;
    ReadVarintBounds(s);
    if ReadVarint(s).More? {
      ReadMore(s, ext);
      var v := ReadVarint(s + ext);
      ReadVarintBounds(s + ext);
      HeadTailBounds(cfg, v.value % 8, v.value / 8, (s + ext)[v.len..], depth);
    } else {
      ReadVarintExtends(s, ext);
      var v := ReadVarint(s);
      TailMore(s, ext, v.len);
      TailNeedsMore(cfg, v.value % 8, v.value / 8, s[v.len..], ext, depth);
    }
  }

  lemma {:induction false} ElemsMore(s: seq<byte>, ext: seq<byte>, count: nat, signed: bool, lo: int, hi: int)
    requires ReadElems(s, count, signed, lo, hi).end.Short? && ReadElems(s + ext, count, signed, lo, hi).end.Through?
    ensures ReadElems(s + ext, count, signed, lo, hi).used > |s|
    decreases count
  {
    hide ReadVarint;
    ReadVarintBounds(s);
    ReadVarintBounds(s + ext);
    if ReadVarint(s).More? {
      ReadMore(s, ext);
    } else {
      ReadVarintExtends(s, ext);
      var n := ReadVarint(s).len;
      TailMore(s, ext, n);
      ElemsMore(s[n..], ext, count - 1, signed, lo, hi);
    }
  }

  lemma {:induction false} ShortIsLeft(s: seq<byte>, left: nat, k: nat)
    requires k < VARINT_MAX && DropVarints(s, left, k).3.Short?
    ensures DropVarints(s, left, k).0 > 0
    decreases |s|
  {
    if left == 0 {
      DropNone(s, k);
    } else {
      DropByte(s, left, k);
      if s != [] {
        if k == VARINT_MAX - 1 || s[0] < 128 {
          ShortIsLeft(s[1..], left - 1, 0);
        } else {
          ShortIsLeft(s[1..], left, k + 1);
        }
      }
    }
  }

  lemma DrainMore(s: seq<byte>, ext: seq<byte>, nbytes: nat, nvarints: nat, vbytes: nat)
    requires vbytes < VARINT_MAX
    requires Drain(s, nbytes, nvarints, vbytes).end.Short? && Drain(s + ext, nbytes, nvarints, vbytes).end.Through?
    ensures Drain(s + ext, nbytes, nvarints, vbytes).used > |s|
  {
    hide DropVarints;
    DrainExtends(s, ext, nbytes, nvarints, vbytes);
    var d := Drain(s, nbytes, nvarints, vbytes);
    if |s| >= nbytes {
      ShortIsLeft(s[nbytes..], nvarints, vbytes);
      assert ext[0..] == ext;
      var e := DropVarints(ext, d.rest.nvarints, d.rest.vbytes);
      if ext != [] {
        DropByte(ext, d.rest.nvarints, d.rest.vbytes);
      } else {
        DropByte([], d.rest.nvarints, d.rest.vbytes);
      }
    }
  }

  lemma SkipMore(m: M, s: seq<byte>, ext: seq<byte>)
    requires PendingOk(m.pending) && m.pending != Nothing
    requires SkipPending(m, s).Wait? && SkipPending(m, s + ext).Next?
    ensures SkipPending(m, s + ext).used > |s|
  {
    hide Drain, ReadVarint;
    var bare := Bare(m.pending);
    if bare.Scalar? {
      ReadMore(s, ext);
    } else if bare.Discard? {
      DrainMore(s, ext, bare.nbytes, bare.nvarints, bare.vbytes);
    } else {
      DrainMore(s, ext, Extent(bare).0, Extent(bare).1, 0);
    }
  }

  lemma VisitMore(cfg: Config, m: M, id: nat, s: seq<byte>, ext: seq<byte>)
    requires m.visitor.Some? && Announced(Bare(m.pending))
    requires Visit(cfg, m, id, s).Wait? && Visit(cfg, m, id, s + ext).Next?
    ensures Visit(cfg, m, id, s + ext).used > |s|
  {
    hide ReadVarint, ReadElems, Utf8.Valid, IntsFit, BytesFit, FloatsFit, F.Packed;
    match Bare(m.pending)
    case Scalar(_) => ReadMore(s, ext);
    case VArray(signed, count) =>
      var l := cfg.handler.layout(m.visitor.value, m.log, id, signed, count);
      ElemsMore(s, ext, count, signed, l.lo, l.hi);
    case _ =>
  }

  lemma ReadyMore(m: M, row: Row, s: seq<byte>, ext: seq<byte>)
    requires Chunks.Ready(m, row) && TakeReady(m, row, s).Wait? && TakeReady(m, row, s + ext).Next?
    ensures TakeReady(m, row, s + ext).used > |s|
  {
    hide ReadVarint, ReadElems, Utf8.Valid, F.Element, F.Elements, Slots, Truths, SlotsOk, F.Packed;
    if IsIntArray(row.kind) {
      ElemsMore(s, ext, m.pending.count, row.kind.KArraySigned?, RowLo(row), RowHi(row));
    } else if row.kind.KUnsigned? || row.kind.KSigned? || row.kind.KBoolean? {
      ReadMore(s, ext);
    }
  }

  lemma MappedMore(m: M, row: Row, s: seq<byte>, ext: seq<byte>)
    requires Takable(m, row) && TakeMapped(m, row, s).Wait? && TakeMapped(m, row, s + ext).Next?
    ensures TakeMapped(m, row, s + ext).used > |s|
  {
    hide Select, TakeReady, SlotsOk;
    var (picked, fits) := Select(m, row);
    ReadyMore(picked.(pending := Settle(m.pending, row.Declared()).value), row, s, ext);
  }

  lemma StepMore(cfg: Config, m: M, s: seq<byte>, ext: seq<byte>)
    requires Ok(cfg, m) && Step(cfg, m, s).Wait? && Step(cfg, m, s + ext).Next?
    ensures Step(cfg, m, s + ext).used > |s|
  {
    hide TakeMapped, Visit, ParseHead, Dispatch, SkipPending, ScopesOk, TablesOk;
    if m.phase.Take? {
      RowTakable(cfg, m);
      if m.phase.row.Some? {
        MappedMore(m, m.phase.row.value, s, ext);
      } else {
        VisitMore(cfg, m, m.phase.id, s, ext);
      }
    } else if m.pending != Nothing {
      SkipMore(m, s, ext);
    } else if s == [] {
      ParseHeadBounds(cfg, s + ext, Depth(m));
    } else {
      HeadMore(cfg, s, ext, Depth(m));
    }
  }

  /** A step that goes on over some bytes goes on over as many of them as it uses. */
  lemma StepLocal(cfg: Config, m: M, s: seq<byte>, p: nat)
    requires Ok(cfg, m) && Step(cfg, m, s).Next? && Step(cfg, m, s).used <= p <= |s|
    ensures Step(cfg, m, s[..p]) == Step(cfg, m, s)
  {
    hide Step, Ok;
    assert s[..p] + s[p..] == s;
    StepLasts(cfg, m, s[..p], s[p..]);
    if Step(cfg, m, s[..p]).Wait? {
      StepMore(cfg, m, s[..p], s[p..]);
    }
  }

  /** Whatever a run comes through, it comes through with any bytes behind those used up to there. */
  lemma {:induction false} VisitsLocal(cfg: Config, m: M, s: seq<byte>, n: M, t: seq<byte>, x: seq<byte>)
    requires Ok(cfg, m) && Visits(cfg, m, s, n, t)
    ensures Ok(cfg, n) && |t| <= |s|
    ensures Run(cfg, m, s[..|s| - |t|] + x) == Later(Run(cfg, n, x), |s| - |t|)
    decreases Measure(m, s)
  {
    hide Step, Ok;
    StepSound(cfg, m, s);
    if n == m && t == s {
      assert s[..0] + x == x;
      LaterLater(Run(cfg, n, x), 0, 0);
    } else {
      var o := Step(cfg, m, s);
      VisitsLocal(cfg, o.m, s[o.used..], n, t, x);
      var p := |s| - |t|;
      StepLocal(cfg, m, s, p);
      StepLasts(cfg, m, s[..p], x);
      Unfold(cfg, m, s[..p] + x);
      assert (s[..p] + x)[o.used..] == s[o.used..][..p - o.used] + x;
      LaterLater(Run(cfg, n, x), p - o.used, o.used);
    }
  }
}
