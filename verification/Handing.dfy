/**
 Handing over.  What a handler is given for the bytes behind a header, and when
 it is given nothing, settled against the answers it made to the announcement:
 the buffer it offered, the element width it declared.
 */
module Handing {
  import opened Wire
  import opened Message
  import opened Schema
  import opened Machine
  import F = Floats
  import R = RoundTrip
  import opened Bound
  import Scopes
  import opened Caps
  import Utf8

  /** No element of the declared width is too large for the items. */
  predicate Holds(itemSize: nat, signed: bool, lo: int, hi: int) {
    match itemSize
    case 1 => if signed then -0x80 <= lo && hi < 0x80 else hi < 0x100
    case 2 => if signed then -0x8000 <= lo && hi < 0x8000 else hi < 0x1_0000
    case 4 => if signed then -0x8000_0000 <= lo && hi < 0x8000_0000 else hi < 0x1_0000_0000
    case 8 => true
    case _ => false
  }

  /** Does the offered buffer do for the value? */
  predicate Does(cfg: Config, who: int, log: seq<Call>, id: nat, p: Pending, d: Dest) {
    match p
    case Payload(_, len) => Scopes.Writable(d, 1, len)
    case VArray(signed, count) =>
      var layout := cfg.handler.layout(who, log, id, signed, count);
      Scopes.Writable(d, d.itemSize, count) && Holds(d.itemSize, signed, layout.lo, layout.hi)
    case FArray(_, count) => Scopes.Writable(d, 8, count)
    case _ => true
  }

  /** Are the elements within the width the handler declared for the array? */
  predicate InLayout(cfg: Config, who: int, log: seq<Call>, e: Event) {
    e.Ints? ==>
      var layout := cfg.handler.layout(who, log, e.id, e.signed, |e.values|);
      Within(e.values, layout.lo, layout.hi)
  }

  /** The handler's turn at a value: told it, or not. */
  ghost predicate Told(cfg: Config, m: M, v: Out, e: Event, into: bool, o: Out)
    requires m.visitor.Some?
  {
    var who := m.visitor.value;
    && (o.Next? <==> v.Next? && InLayout(cfg, who, m.log, e))
    && (o.Next? ==>
          o.used == v.used && o.m == m.(phase := Walk, pending := Nothing, log := m.log + [Call(who, into, e)]))
    && (o.Wait? ==> v.Wait?)
    && (v.Stop? || (v.Next? && !InLayout(cfg, who, m.log, e)) ==> o.Stop? && o.why.Invalid?)
  }

  /**
   Whatever bytes follow its header, a value the handler wants is handed over
   exactly when a listener would be handed it and its elements are within the
   width the handler declared; otherwise the decode ends INVALID or waits where
   the listener's does.  Before that, a buffer that does not do ends it Refused,
   and a cap ends it unless a buffer was offered.
   */
  lemma VisitVerdict(cfg: Config, m: M, id: nat, s: seq<byte>) returns (e: Event)
    requires m.visitor.Some? && Announced(Bare(m.pending)) && id <= ID_MAX
    ensures
      var p, who := Bare(m.pending), m.visitor.value;
      var v, o, offer := Listened(p, id, s), Visit(cfg, m, id, s), Offered(cfg, who, m.log, id, p);
      && (v.Next? ==> IsTold(v, e) && IsField(e) && R.AnnouncedBy(e) == p)
      && if m.pending.Limit? && !p.Scalar? && offer.None? then o.Stop? && o.why.Limited?
         else if offer.Some? && !Does(cfg, who, m.log, id, p, offer.value) then o.Stop? && o.why.Refused?
         else Told(cfg, m, v, e, offer.Some?, o)
  {
    var p := Bare(m.pending);
    var v := Listened(p, id, s);
    e := Telling(p, id, s);
    ListenedIs(p, id, s);
    hide Listened, Utf8.IsText, Utf8.Valid, ReadVarint, ReadElems, R.AnnouncedBy, IsField;
    match p
    case Scalar(signed) =>
    case Payload(st, len) =>
      if len <= |s| {
        Utf8.ValidIff(s[..len]);
      }
    case VArray(signed, count) =>
      IntsTold(cfg, m, id, signed, count, s, v, e);
    case FArray(st, count) =>
  }

  lemma IntsTold(cfg: Config, m: M, id: nat, signed: bool, count: nat, s: seq<byte>, v: Out, e: Event)
    requires m.visitor.Some? && Bare(m.pending) == VArray(signed, count)
    requires Announced(Bare(m.pending)) && Outcome(Bare(m.pending), id, s, v) && (v.Next? ==> IsTold(v, e))
    ensures
      var who := m.visitor.value;
      var layout, o := cfg.handler.layout(who, m.log, id, signed, count), VisitInts(cfg, m, id, signed, count, s);
      if m.pending.Limit? && layout.into.None? then o.Stop? && o.why.Limited?
      else if layout.into.Some? && !Does(cfg, who, m.log, id, Bare(m.pending), layout.into.value) then
        o.Stop? && o.why.Refused?
      else Told(cfg, m, v, e, layout.into.Some?, o)
  {
    var layout := cfg.handler.layout(m.visitor.value, m.log, id, signed, count);
    ElemsWithin(s, count, signed, layout.lo, layout.hi);
    ReadElemsBounds(s, count, signed, -TWO63, TWO64 - 1);
    if layout.into.Some? {
      DoesIff(cfg, m.visitor.value, m.log, id, Bare(m.pending), layout.into.value);
    }
    hide ReadElems, Within, IntsFit, Does;
  }

  /** The three tests of a buffer come to that. */
  lemma DoesIff(cfg: Config, who: int, log: seq<Call>, id: nat, p: Pending, d: Dest)
    ensures p.Payload? ==> (BytesFit(d, p.len) <==> Does(cfg, who, log, id, p, d))
    ensures p.FArray? ==> (FloatsFit(d, p.count) <==> Does(cfg, who, log, id, p, d))
    ensures p.VArray? ==>
      var layout := cfg.handler.layout(who, log, id, p.signed, p.count);
      IntsFit(d, p.signed, layout.lo, layout.hi, p.count) <==> Does(cfg, who, log, id, p, d)
  {
  }

  /** An element outside the declared width ends the decode INVALID, whatever follows it. */
  lemma OutsideEnds(cfg: Config, m: M, id: nat, p: Pending, vs: seq<int>, rest: seq<byte>)
    requires m.visitor.Some? && Bare(m.pending) == p && p.VArray? && |vs| <= p.count
    requires forall i | 0 <= i < |vs| :: ValueOk(p.signed, vs[i])
    requires
      var layout := cfg.handler.layout(m.visitor.value, m.log, id, p.signed, p.count);
      && (m.pending.Limit? ==> layout.into.Some?)
      && (layout.into.Some? ==> Does(cfg, m.visitor.value, m.log, id, p, layout.into.value))
      && exists i | 0 <= i < |vs| :: !(layout.lo <= vs[i] <= layout.hi)
    ensures
      var o := VisitInts(cfg, m, id, p.signed, p.count, Message.Elements(p.signed, vs) + rest);
      o.Stop? && o.why.Invalid?
  {
    var layout := cfg.handler.layout(m.visitor.value, m.log, id, p.signed, p.count);
    var s := Message.Elements(p.signed, vs) + rest;
    R.ElementOutside(p.signed, vs, rest, p.count, layout.lo, layout.hi);
    BadEnds(cfg, m, id, p.signed, p.count, s);
  }

  lemma BadEnds(cfg: Config, m: M, id: nat, signed: bool, count: nat, s: seq<byte>)
    requires m.visitor.Some? && Bare(m.pending) == VArray(signed, count)
    requires
      var layout := cfg.handler.layout(m.visitor.value, m.log, id, signed, count);
      && (m.pending.Limit? ==> layout.into.Some?)
      && (layout.into.Some? ==> Does(cfg, m.visitor.value, m.log, id, Bare(m.pending), layout.into.value))
      && ReadElems(s, count, signed, layout.lo, layout.hi).end.Bad?
    ensures VisitInts(cfg, m, id, signed, count, s).Stop? && VisitInts(cfg, m, id, signed, count, s).why.Invalid?
  {
    hide ReadElems;
  }
}
