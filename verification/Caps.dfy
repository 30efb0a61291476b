/**
 Receiver caps.  A cap stops a decode at a field's header, before any of its
 payload, and only where the receiver would have to build the value and no
 schema bound speaks for it; up to there a capped decode is the uncapped one.
 */
module Caps {
  import opened Wire
  import opened Message
  import opened Schema
  import opened Machine
  import Chunks
  import Utf8
  import F = Floats

  /** Is the announced value over the cap of its kind? */
  predicate OverCap(cfg: Config, p: Pending) {
    match p
    case Payload(st, len) => (st == STRING && len > cfg.textCap) || (st == BLOB && len > cfg.blobCap)
    case VArray(_, count) => count > cfg.arrayCap
    case FArray(_, count) => count > cfg.arrayCap
    case _ => false
  }

  /** The buffer the handler offers for a value announced to it; the raw fp32-array route asks for none. */
  function Offered(cfg: Config, who: int, log: seq<Call>, id: nat, p: Pending): Option<Dest> {
    match p
    case Payload(st, len) =>
      if st == STRING || st == BLOB then cfg.handler.place(who, log, id, FIXLEN, st, len) else None
    case VArray(signed, count) => cfg.handler.layout(who, log, id, signed, count).into
    case FArray(st, count) =>
      if st == FP32 && cfg.handler.rawSingles(who) then None
      else cfg.handler.place(who, log, id, ARRAY_FIXLEN, st, count)
    case _ => None
  }

  /** Has the handler storage of its own for the announced value? */
  predicate Backed(cfg: Config, m: M, id: nat)
    requires m.visitor.Some?
  {
    Offered(cfg, m.visitor.value, m.log, id, Bare(m.pending)).Some?
  }

  /** The attempt at a value that a cap rejects, whatever bytes are at hand. */
  predicate Rejects(cfg: Config, m: M)
    requires Ok(cfg, m) && m.phase.Take?
  {
    && m.pending.Limit?
    && match m.phase.row
       case Some(row) => Select(m, row).1 && row.Declared() < 0 && !row.into
       case None => !Backed(cfg, m, m.phase.id)
  }

  lemma MappedLimited(m: M, row: Row, s: seq<byte>)
    requires SlotsOk(row, |m.words|, |m.objects|) && !row.kind.KSequence?
    requires PendingOk(m.pending) && Announced(Bare(m.pending)) && WireTag(row.kind) == TagOf(Bare(m.pending))
    ensures
      var o := TakeMapped(m, row, s);
      (o.Stop? && o.why.Limited?) <==> m.pending.Limit? && Select(m, row).1 && row.Declared() < 0 && !row.into
  {
    hide SlotsOk, Select, ReadVarint, ReadElems, Utf8.Valid;
  }

  lemma VisitLimited(cfg: Config, m: M, id: nat, s: seq<byte>)
    requires m.visitor.Some? && PendingOk(m.pending) && Announced(Bare(m.pending))
    ensures
      var o := Visit(cfg, m, id, s);
      (o.Stop? && o.why.Limited?) <==> m.pending.Limit? && !Backed(cfg, m, id)
  {
    hide ReadVarint, ReadElems, Utf8.Valid, Deliver;
  }

  /**
   The one place a cap speaks, and exactly when.  The condition does not
   mention the bytes: the verdict is there at the header, before any payload.
   */
  lemma LimitedIff(cfg: Config, m: M, s: seq<byte>)
    requires Ok(cfg, m)
    ensures
      var o := Step(cfg, m, s);
      (o.Stop? && o.why.Limited?) <==> m.phase.Take? && Rejects(cfg, m)
  {
    hide TakeMapped, Visit, ParseHead, Dispatch, ScopesOk, TablesOk, Backed, Select;
    if m.phase.Take? {
      if m.phase.row.Some? {
        MappedLimited(m, m.phase.row.value, s);
      } else {
        VisitLimited(cfg, m, m.phase.id, s);
      }
    } else if m.pending == Nothing && s != [] {
      ParseHeadBounds(cfg, s, Machine.Depth(m));
      var h := ParseHead(cfg, s, Machine.Depth(m));
      if h.Head? && m.phase.Walk? {
        DispatchNotLimited(cfg, m.(pending := h.pending), h.wt, h.id, h.sub);
      }
    }
  }

  lemma DispatchNotLimited(cfg: Config, m: M, wt: nat, id: nat, sub: int)
    requires Ok(cfg, m) && m.phase == Walk && wt < 8 && id <= ID_MAX
    requires wt == SEQUENCE_END ==> m.scopes != []
    requires wt < SEQUENCE_START ==> Announced(Bare(m.pending))
    ensures
      var t := Dispatch(cfg, m, wt, id, sub);
      t.Die? ==> !t.why.Limited?
  {
    hide Select, Settle, HandlerBound, TablesOk, CloseScope, EnterHandler;
  }

  // ----- the field a verdict is about --------------------------------------------------

  /** The wire types and subtypes a row of each kind takes. */
  predicate Fits(kind: Kind, wt: nat, sub: int) {
    match kind
    case KUnsigned => wt == 0
    case KBoolean => wt == 0
    case KSigned => wt == 1
    case KFloat32 => wt == 2 && sub == 0
    case KFloat64 => wt == 2 && sub == 1
    case KString => wt == 2 && sub == 2
    case KBytes => wt == 2 && sub == 3
    case KArrayUnsigned => wt == 3
    case KArrayBoolean => wt == 3
    case KArraySigned => wt == 4
    case KArrayFloat32 => wt == 5 && sub == 0
    case KArrayFloat64 => wt == 5 && sub == 1
    case KSequence => wt == 6
  }

  /** The rows that speak for the fields met now. */
  function Here(cfg: Config, table: Option<nat>): map<nat, Row> {
    if table.Some? && table.value < |cfg.tables| then cfg.tables[table.value].rows else map[]
  }

  /** The row that takes the field: of its id, and of a kind the wire's tag fits. */
  function Taker(cfg: Config, table: Option<nat>, wt: nat, id: nat, sub: int): Option<Row> {
    var rows := Here(cfg, table);
    if id in rows && Fits(rows[id].kind, wt, sub) then Some(rows[id]) else None
  }

  lemma LookupIsTaker(cfg: Config, table: Option<nat>, wt: nat, id: nat, sub: int)
    ensures Lookup(cfg, table, id, wt, sub) == Taker(cfg, table, wt, id, sub)
    ensures Mistyped(cfg, table, id, wt, sub) <==> id in Here(cfg, table) && Taker(cfg, table, wt, id, sub).None?
  {
  }

  /** Is the handler asked about the fields that no row of the table names? */
  predicate Heard(cfg: Config, m: M) {
    m.visitor.Some? && (m.table.Some? && m.table.value < |cfg.tables| ==> !cfg.tables[m.table.value].closed)
  }

  /** Whoever wants the field: the row that takes it, or the handler, of a field no row names. */
  predicate Wanted(cfg: Config, m: M, wt: nat, id: nat, sub: int) {
    Taker(cfg, m.table, wt, id, sub).Some? ||
    (id !in Here(cfg, m.table) && Heard(cfg, m) &&
     cfg.handler.accept(m.visitor.value, m.log, id, wt, sub, Size(Bare(m.pending))))
  }

  /** The calls behind the question whether the field is wanted. */
  function AfterWants(m: M, who: int, wt: nat, id: nat, sub: int): seq<Call> {
    m.log + [Asked(who, Wants(id, wt, sub, Size(Bare(m.pending))))]
  }

  /** Is the field's value a string, a blob or an array? */
  predicate Bulky(p: Pending) {
    p.VArray? || p.FArray? || (p.Payload? && (p.st == STRING || p.st == BLOB))
  }

  /**
   The bound the schema declares for the field, -1 for none: a row's capacity,
   which of a string or a blob is one only if it is not 0; or the handler's
   answer, asked for strings, blobs and arrays.
   */
  function Bound(cfg: Config, m: M, wt: nat, id: nat, sub: int): int {
    match Taker(cfg, m.table, wt, id, sub)
    case Some(row) =>
      (match row.kind
       case KString => if row.cap > 0 then row.cap else -1
       case KBytes => if row.cap > 0 then row.cap else -1
       case KArrayUnsigned => row.cap
       case KArraySigned => row.cap
       case KArrayBoolean => row.cap
       case KArrayFloat32 => row.cap
       case KArrayFloat64 => row.cap
       case _ => -1)
    case None =>
      if m.visitor.None? || !Bulky(Bare(m.pending)) then -1
      else
        var who := m.visitor.value;
        cfg.handler.bound(who, AfterWants(m, who, wt, id, sub), id, Size(Bare(m.pending)), wt, sub)
  }

  /** Storage it would go to without being built: a row's buffer, or one the handler offers when asked for it. */
  predicate Placed(cfg: Config, m: M, wt: nat, id: nat, sub: int) {
    match Taker(cfg, m.table, wt, id, sub)
    case Some(row) => row.into
    case None =>
      m.visitor.Some? &&
      var who, p := m.visitor.value, Bare(m.pending);
      var asked := AfterWants(m, who, wt, id, sub);
      Offered(cfg, who, if Bulky(p) then asked + [Asked(who, Bounds(id, Size(p), wt, sub))] else asked, id, p).Some?
  }

  /** The questions and the bound as the walk works them out. */
  lemma AsWorkedOut(cfg: Config, m: M, wt: nat, id: nat, sub: int)
    requires Announced(Bare(m.pending)) && TagOf(Bare(m.pending)) == (wt, sub)
    ensures
      var row := Lookup(cfg, m.table, id, wt, sub);
      && (row.Some? ==> Bound(cfg, m, wt, id, sub) == row.value.Declared())
      && (row.None? && m.visitor.Some? ==>
            && Bound(cfg, m, wt, id, sub) == HandlerBound(cfg, AskWanted(m, id, wt, sub), id)
            && (Placed(cfg, m, wt, id, sub) <==> Backed(cfg, Consulted(m, id, wt, sub), id)))
      && (Heard(cfg, m) <==> m.visitor.Some? && !Closed(cfg, m.table))
      && (Wanted(cfg, m, wt, id, sub) <==>
            || row.Some?
            || (&& !Mistyped(cfg, m.table, id, wt, sub) && !Closed(cfg, m.table)
                && Accepts(cfg, m, id, wt, sub)))
  {
    LookupIsTaker(cfg, m.table, wt, id, sub);
    hide Lookup, Mistyped, Fits;
  }

  /** Does an option's row have its defaults' destinations in order? */
  predicate Selectable(cfg: Config, m: M, wt: nat, id: nat, sub: int)
    requires Ok(cfg, m)
  {
    var row := Taker(cfg, m.table, wt, id, sub);
    LookupIsTaker(cfg, m.table, wt, id, sub);
    row.Some? ==> (RowSlots(cfg, m, id, wt, sub); Select(m, row.value).1)
  }

  lemma RowSlots(cfg: Config, m: M, id: nat, wt: nat, sub: int)
    requires Ok(cfg, m)
    ensures
      var row := Lookup(cfg, m.table, id, wt, sub);
      row.Some? ==> SlotsOk(row.value, |m.words|, |m.objects|)
  {
    var row := Lookup(cfg, m.table, id, wt, sub);
    if row.Some? {
      assert RowOk(row.value, |cfg.tables|, |m.words|, |m.objects|);
    }
  }

  /** Where the walk is behind the header of a value field. */
  function Met(cfg: Config, m: M, wt: nat, id: nat, sub: int, p: Pending): Turn
    requires Ok(cfg, m) && m.phase == Walk && m.pending == Nothing && wt < SEQUENCE_START && id <= ID_MAX
    requires Announced(p) && TagOf(p) == (wt, sub)
  {
    Dispatch(cfg, m.(pending := Capped(cfg, p)), wt, id, sub)
  }

  /**
   A field ends the decode with a Limit exactly when somebody wants it, it is
   over its cap, no schema bound is declared for it, and it would have to be
   built.  A field nobody wants is never capped; one with a destination of its
   own is never capped; one the schema bounds is never capped.
   */
  lemma CapVerdict(cfg: Config, m: M, wt: nat, id: nat, sub: int, p: Pending, s: seq<byte>)
    requires Ok(cfg, m) && m.phase == Walk && m.pending == Nothing && wt < SEQUENCE_START && id <= ID_MAX
    requires Announced(p) && TagOf(p) == (wt, sub)
    ensures
      var t := Met(cfg, m, wt, id, sub, p);
      var q := m.(pending := p);
      (t.Go? && t.m.phase.Take? && Ok(cfg, t.m) && Step(cfg, t.m, s).Stop? && Step(cfg, t.m, s).why.Limited?) <==>
      && OverCap(cfg, p) && Wanted(cfg, q, wt, id, sub) && Bound(cfg, q, wt, id, sub) < 0
      && !Placed(cfg, q, wt, id, sub) && Selectable(cfg, m, wt, id, sub)
  {
    hide ScopesOk, TablesOk, Dispatch, Step, Lookup, Mistyped, Closed, HandlerBound;
    var q := m.(pending := Capped(cfg, p));
    assert Ok(cfg, q);
    DispatchSound(cfg, q, wt, id, sub);
    var t := Met(cfg, m, wt, id, sub, p);
    if t.Go? {
      LimitedIff(cfg, t.m, s);
    }
    RowSlots(cfg, m, id, wt, sub);
    MetTakes(cfg, m, wt, id, sub, p);
    LookupIsTaker(cfg, m.table, wt, id, sub);
    AsWorkedOut(cfg, m.(pending := p), wt, id, sub);
    hide Wanted, Bound, Offered, Taker;
  }

  /** What the walk takes on behind a value header, and with which cap still on it. */
  lemma MetTakes(cfg: Config, m: M, wt: nat, id: nat, sub: int, p: Pending)
    requires Ok(cfg, m) && m.phase == Walk && m.pending == Nothing && wt < SEQUENCE_START && id <= ID_MAX
    requires Announced(p) && TagOf(p) == (wt, sub)
    ensures
      var t := Met(cfg, m, wt, id, sub, p);
      var row, declared := Lookup(cfg, m.table, id, wt, sub), Bound(cfg, m.(pending := p), wt, id, sub);
      var q := m.(pending := Capped(cfg, p));
      var asked := Consulted(q, id, wt, sub);
      if row.Some? then t == Go(q.(phase := Take(id, row)))
      else if !Wanted(cfg, m.(pending := p), wt, id, sub) then t.Go? && !t.m.phase.Take?
      else if declared >= 0 && Size(p) > declared then t == Die(asked, Invalid)
      else t == Go(asked.(pending := if declared < 0 then Capped(cfg, p) else p, phase := Take(id, None)))
  {
    AsWorkedOut(cfg, m.(pending := p), wt, id, sub);
    var asked := AskWanted(m.(pending := Capped(cfg, p)), id, wt, sub);
    assert m.visitor.Some? ==>
      HandlerBound(cfg, asked, id) == HandlerBound(cfg, AskWanted(m.(pending := p), id, wt, sub), id);
    hide TablesOk, ScopesOk, Lookup, Mistyped, Wanted, Bound, Closed;
  }

  /**
   Where a field goes.  One whose id a row names with another tag is left to be
   skipped and no hook hears of it, and so is one no row names inside a closed
   table or without a handler; one the handler does not want is skipped behind
   the question.
   */
  lemma Routed(cfg: Config, m: M, wt: nat, id: nat, sub: int, p: Pending)
    requires Ok(cfg, m) && m.phase == Walk && m.pending == Nothing && wt < SEQUENCE_START && id <= ID_MAX
    requires Announced(p) && TagOf(p) == (wt, sub)
    ensures
      var t, q := Met(cfg, m, wt, id, sub, p), m.(pending := Capped(cfg, p));
      var row := Taker(cfg, m.table, wt, id, sub);
      if row.Some? then t == Go(q.(phase := Take(id, row)))
      else if id in Here(cfg, m.table) || !Heard(cfg, m) then t == Go(q)
      else
        var who := m.visitor.value;
        if !cfg.handler.accept(who, m.log, id, wt, sub, Size(p)) then
          t == Go(q.(log := m.log + [Asked(who, Wants(id, wt, sub, Size(p)))]))
        else
          && AfterWants(m.(pending := p), who, wt, id, sub) <= t.m.log
          && (t.Go? ==> t.m.phase == Take(id, None) && Bare(t.m.pending) == p)
  {
    LookupIsTaker(cfg, m.table, wt, id, sub);
    AsWorkedOut(cfg, m.(pending := p), wt, id, sub);
    hide TablesOk, ScopesOk, Lookup, Mistyped, Taker, Closed, Bound, Wanted, HandlerBound;
  }

  /** The decode ends for this reason at the header, or at the attempt at what stands behind it. */
  predicate Ends(cfg: Config, t: Turn, s: seq<byte>, why: Why) {
    || (t.Die? && t.why == why)
    || (t.Go? && t.m.phase.Take? && Ok(cfg, t.m) && Step(cfg, t.m, s).Stop? && Step(cfg, t.m, s).why == why)
  }

  lemma SettlesIff(p: Pending, declared: int)
    requires Announced(Bare(p)) && PendingOk(p)
    ensures Settle(p, declared).None? <==> 0 <= declared < Size(Bare(p))
  {
  }

  /** A value over its row's bound is malformed whatever its bytes; before any of them, nothing else is. */
  lemma MappedBreach(m: M, row: Row, s: seq<byte>)
    requires Chunks.Takable(m, row)
    ensures
      var breach := Select(m, row).1 && 0 <= row.Declared() < Size(Bare(m.pending));
      && (breach ==> TakeMapped(m, row, s).Stop? && TakeMapped(m, row, s).why.Invalid?)
      && (TakeMapped(m, row, []).Stop? && TakeMapped(m, row, []).why.Invalid? ==> breach)
  {
    hide SlotsOk, Select, TakeReady;
    SettlesIff(m.pending, row.Declared());
    var (picked, fits) := Select(m, row);
    var settled := Settle(m.pending, row.Declared());
    if fits && settled.Some? {
      ReadyOnNothing(picked.(pending := settled.value), row);
    }
  }

  lemma ReadyOnNothing(m: M, row: Row)
    requires Chunks.Ready(m, row)
    ensures
      var o := TakeReady(m, row, []);
      o.Stop? ==> !o.why.Invalid?
  {
    hide SlotsOk, F.Elements, F.Element, Slots, Truths;
  }

  lemma VisitOnNothing(cfg: Config, m: M, id: nat)
    requires m.visitor.Some? && Announced(Bare(m.pending))
    ensures
      var o := Visit(cfg, m, id, []);
      o.Stop? ==> !o.why.Invalid?
  {
    hide IntsFit, BytesFit, FloatsFit;
  }

  /**
   A field over the bound its schema declares is malformed, and not over a cap:
   wanted and selectable, it ends the decode INVALID at its header, whatever
   its payload.  And of all that can end a decode INVALID before the first
   payload byte of a field in range, this is the only one.
   */
  lemma BoundVerdict(cfg: Config, m: M, wt: nat, id: nat, sub: int, p: Pending, s: seq<byte>)
    requires Ok(cfg, m) && m.phase == Walk && m.pending == Nothing && wt < SEQUENCE_START && id <= ID_MAX
    requires Announced(p) && TagOf(p) == (wt, sub)
    ensures
      var t := Met(cfg, m, wt, id, sub, p);
      var q := m.(pending := p);
      var breach :=
        && Wanted(cfg, q, wt, id, sub) && Selectable(cfg, m, wt, id, sub)
        && 0 <= Bound(cfg, q, wt, id, sub) < Size(p);
      (breach ==> Ends(cfg, t, s, Invalid)) && (Ends(cfg, t, [], Invalid) ==> breach)
  {
    hide ScopesOk, TablesOk, Dispatch, Step, Lookup, Mistyped, Closed, HandlerBound, Select;
    var q := m.(pending := Capped(cfg, p));
    DispatchSound(cfg, q, wt, id, sub);
    var t := Met(cfg, m, wt, id, sub, p);
    MetTakes(cfg, m, wt, id, sub, p);
    RowSlots(cfg, m, id, wt, sub);
    LookupIsTaker(cfg, m.table, wt, id, sub);
    AsWorkedOut(cfg, m.(pending := p), wt, id, sub);
    hide Wanted, Bound, Taker;
    if t.Go? && t.m.phase.Take? {
      BreachTakes(cfg, t.m, s);
      if t.m.phase.row.Some? {
        SelectsAlike(m, t.m, t.m.phase.row.value);
      }
    }
  }

  lemma SelectsAlike(m: M, n: M, row: Row)
    requires SlotsOk(row, |m.words|, |m.objects|) && n.words == m.words && n.objects == m.objects
    ensures Select(n, row).1 == Select(m, row).1
  {
    hide ResetWords, ResetObjects, ResetInto;
  }

  lemma BreachTakes(cfg: Config, m: M, s: seq<byte>)
    requires Ok(cfg, m) && m.phase.Take?
    ensures m.phase.row.Some? ==>
      var row := m.phase.row.value;
      && SlotsOk(row, |m.words|, |m.objects|)
      && var breach := Select(m, row).1 && 0 <= row.Declared() < Size(Bare(m.pending));
         && (breach ==> Step(cfg, m, s).Stop? && Step(cfg, m, s).why.Invalid?)
         && (Step(cfg, m, []).Stop? && Step(cfg, m, []).why.Invalid? ==> breach)
    ensures m.phase.row.None? && Step(cfg, m, []).Stop? ==> !Step(cfg, m, []).why.Invalid?
  {
    hide TakeMapped, Visit, Select, ScopesOk, TablesOk, SlotsOk;
    Chunks.RowTakable(cfg, m);
    if m.phase.row.Some? {
      MappedBreach(m, m.phase.row.value, s);
    } else {
      VisitOnNothing(cfg, m, m.phase.id);
    }
  }

  // ----- a cap only cuts a decode short --------------------------------------------------

  /** The same receiver with every cap at the ceiling of the format. */
  function Loose(cfg: Config): Config {
    cfg.(arrayCap := ARRAY_MAX, textCap := FIXLEN_MAX, blobCap := FIXLEN_MAX)
  }

  /** The same state with the parked verdict, if there is one, taken off. */
  function Naked(m: M): M {
    m.(pending := Bare(m.pending))
  }

  function NakedOut(o: Out): Out {
    match o
    case Next(m, used) => Next(Naked(m), used)
    case Wait(m, used) => Wait(Naked(m), used)
    case Stop(m, why) => Stop(Naked(m), why)
  }

  predicate CutShort(o: Out) {
    o.Stop? && o.why.Limited?
  }

  lemma NakedOk(cfg: Config, m: M)
    requires Ok(cfg, m)
    ensures Ok(Loose(cfg), Naked(m))
  {
    ScopesLoose(cfg, m.scopes, m.table, m.visitor);
  }

  lemma {:induction false} ScopesLoose(cfg: Config, scopes: seq<Frame>, table: Option<nat>, visitor: Option<int>)
    ensures ScopesOk(Loose(cfg), scopes, table, visitor) <==> ScopesOk(cfg, scopes, table, visitor)
    decreases |scopes|
  {
    if scopes != [] {
      var f := scopes[|scopes| - 1];
      ScopesLoose(cfg, scopes[..|scopes| - 1], f.table, f.visitor);
    }
  }

  lemma LooseHead(cfg: Config, s: seq<byte>, depth: nat)
    ensures
      var h, l := ParseHead(cfg, s, depth), ParseHead(Loose(cfg), s, depth);
      if h.Head? then l == h.(pending := Bare(h.pending)) else l == h
  {
    hide ReadVarint;
    ReadVarintBounds(s);
    if ReadVarint(s).Got? {
      ReadVarintBounds(s[ReadVarint(s).len..]);
    }
  }

  lemma LooseSelect(m: M, row: Row)
    requires SlotsOk(row, |m.words|, |m.objects|)
    ensures
      var (picked, fits) := Select(m, row);
      picked.pending == m.pending && Select(Naked(m), row) == (Naked(picked), fits)
  {
    hide ResetWords, ResetObjects, ResetInto;
  }

  lemma LooseReady(m: M, row: Row, s: seq<byte>)
    requires SlotsOk(row, |m.words|, |m.objects|) && !row.kind.KSequence?
    requires PendingOk(m.pending) && Announced(Bare(m.pending)) && WireTag(row.kind) == TagOf(Bare(m.pending))
    requires IsArray(row.kind) ==> m.pending == Bare(m.pending) && Settle(m.pending, row.cap).Some?
    ensures
      var o := TakeReady(m, row, s);
      CutShort(o) || TakeReady(Naked(m), row, s) == NakedOut(o)
  {
    hide SlotsOk, ReadVarint, ReadElems, Utf8.Valid, Slots, Truths, F.Element, F.Elements;
    if IsObject(row.kind) {
      assert Naked(m).pending == Bare(m.pending);
    } else {
      assert Naked(m) == m;
    }
  }

  lemma LooseMapped(m: M, row: Row, s: seq<byte>)
    requires SlotsOk(row, |m.words|, |m.objects|) && !row.kind.KSequence?
    requires PendingOk(m.pending) && Announced(Bare(m.pending)) && WireTag(row.kind) == TagOf(Bare(m.pending))
    ensures
      var o := TakeMapped(m, row, s);
      CutShort(o) || TakeMapped(Naked(m), row, s) == NakedOut(o)
  {
    hide SlotsOk, Select, TakeReady;
    LooseSelect(m, row);
    var (picked, fits) := Select(m, row);
    if fits && Settle(m.pending, row.Declared()).Some? {
      var p := Settle(m.pending, row.Declared()).value;
      assert Naked(picked).(pending := Bare(p)) == Naked(picked.(pending := p));
      LooseReady(picked.(pending := p), row, s);
    }
  }

  lemma LooseVisit(cfg: Config, m: M, id: nat, s: seq<byte>)
    requires m.visitor.Some? && Announced(Bare(m.pending)) && PendingOk(m.pending)
    ensures
      var o := Visit(cfg, m, id, s);
      CutShort(o) || Visit(Loose(cfg), Naked(m), id, s) == NakedOut(o)
  {
    hide ReadVarint, ReadElems, Utf8.Valid;
  }

  lemma LooseSkip(m: M, s: seq<byte>)
    requires PendingOk(m.pending) && m.pending != Nothing
    ensures SkipPending(Naked(m), s) == NakedOut(SkipPending(m, s))
  {
    hide ReadVarint, DropVarints;
  }

  lemma LooseDispatch(cfg: Config, m: M, wt: nat, id: nat, sub: int)
    requires Ok(cfg, m) && Ok(Loose(cfg), Naked(m)) && m.phase == Walk && wt < 8 && id <= ID_MAX
    requires wt == SEQUENCE_END ==> m.scopes != []
    requires wt >= SEQUENCE_START ==> m.pending == Nothing
    requires wt < SEQUENCE_START ==> Announced(Bare(m.pending))
    ensures
      var t, l := Dispatch(cfg, m, wt, id, sub), Dispatch(Loose(cfg), Naked(m), wt, id, sub);
      if t.Go? then l == Go(Naked(t.m)) else l == Die(Naked(t.m), t.why)
  {
    hide TablesOk, ScopesOk;
    var row := Lookup(cfg, m.table, id, wt, sub);
    assert Lookup(Loose(cfg), m.table, id, wt, sub) == row;
    if wt >= SEQUENCE_START {
      assert Naked(m) == m;
      if row.Some? && wt == SEQUENCE_START {
        RowSlots(cfg, m, id, wt, sub);
      }
      hide Select;
    } else {
      hide EnterRow, EnterHandler, CloseScope, Select;
    }
  }

  /** Step by step: a cap stops the decode or makes no difference at all. */
  lemma StepLoose(cfg: Config, m: M, s: seq<byte>)
    requires Ok(cfg, m) && Ok(Loose(cfg), Naked(m))
    ensures
      var o := Step(cfg, m, s);
      if CutShort(o) then o.m.log == m.log else Step(Loose(cfg), Naked(m), s) == NakedOut(o)
  {
    hide TakeMapped, Visit, ParseHead, Dispatch, ScopesOk, TablesOk, SkipPending, Select, Backed;
    LimitedIff(cfg, m, s);
    if m.phase.Take? {
      TakeLoose(cfg, m, s);
    } else if m.pending != Nothing {
      LooseSkip(m, s);
    } else if s != [] {
      LooseHead(cfg, s, Machine.Depth(m));
      ParseHeadBounds(cfg, s, Machine.Depth(m));
      var h := ParseHead(cfg, s, Machine.Depth(m));
      if h.Head? && m.phase.Walk? {
        NakedOk(cfg, m.(pending := h.pending));
        LooseDispatch(cfg, m.(pending := h.pending), h.wt, h.id, h.sub);
      }
    }
  }

  lemma TakeLoose(cfg: Config, m: M, s: seq<byte>)
    requires Ok(cfg, m) && Ok(Loose(cfg), Naked(m)) && m.phase.Take?
    ensures
      var o := Step(cfg, m, s);
      if CutShort(o) then o.m.log == m.log else Step(Loose(cfg), Naked(m), s) == NakedOut(o)
  {
    hide TakeMapped, Visit, ScopesOk, TablesOk;
    if m.phase.row.Some? {
      LooseMapped(m, m.phase.row.value, s);
      CutIsSilent(cfg, m, s);
    } else {
      LooseVisit(cfg, m, m.phase.id, s);
      CutIsSilent(cfg, m, s);
    }
  }

  lemma CutIsSilent(cfg: Config, m: M, s: seq<byte>)
    requires Ok(cfg, m) && m.phase.Take?
    ensures CutShort(Step(cfg, m, s)) ==> Step(cfg, m, s).m.log == m.log
  {
    hide SlotsOk, ScopesOk, TablesOk, Select, ReadVarint, ReadElems, Utf8.Valid, Deliver;
  }

  /**
   A cap only cuts a decode short.  Until it does, the capped decode is the
   uncapped one; where it does, what was delivered is a prefix of what the
   uncapped decode delivers: the bytes are not malformed, they were declined.
   */
  lemma {:induction false} CapsOnlyCut(cfg: Config, m: M, s: seq<byte>)
    requires Ok(cfg, m) && Ok(Loose(cfg), Naked(m))
    ensures
      var o := Run(cfg, m, s);
      var l := Run(Loose(cfg), Naked(m), s);
      if CutShort(o) then o.m.log <= l.m.log else l == NakedOut(o)
    decreases Measure(m, s)
  {
    hide Step, Ok;
    StepLoose(cfg, m, s);
    Unfold(cfg, m, s);
    Unfold(Loose(cfg), Naked(m), s);
    StepSound(cfg, m, s);
    match Step(cfg, m, s)
    case Next(n, used) =>
      CapsOnlyCut(cfg, n, s[used..]);
    case _ =>
      if CutShort(Step(cfg, m, s)) {
        Chunks.RunLogGrows(Loose(cfg), Naked(m), s);
      }
  }

  lemma NakedNothing(cfg: Config, m: M)
    requires Ok(cfg, m)
    ensures Naked(m).pending == Nothing <==> m.pending == Nothing
  {
  }

  /** The same over the feeds of a whole decode: a verdict other than Limit is the verdict without caps. */
  lemma CappedDecode(cfg: Config, words: seq<word>, objects: seq<Obj>, s: seq<byte>)
    requires Ok(cfg, Start(cfg, words, objects))
    ensures Ok(Loose(cfg), Start(cfg, words, objects))
    ensures
      var d := Chunks.Feed(cfg, Chunks.Live(Start(cfg, words, objects), []), s);
      var l := Chunks.Feed(Loose(cfg), Chunks.Live(Start(cfg, words, objects), []), s);
      && (d.Dead? && d.why.Limited? ==> Chunks.Log(d) <= Chunks.Log(l))
      && (!(d.Dead? && d.why.Limited?) ==>
            Chunks.StatusOf(l) == Chunks.StatusOf(d) && Chunks.Log(l) == Chunks.Log(d))
  {
    hide Step, Ok, Run;
    var m := Start(cfg, words, objects);
    NakedOk(cfg, m);
    assert Naked(m) == m && [] + s == s;
    CapsOnlyCut(cfg, m, s);
    if Run(cfg, m, s).Wait? {
      NakedNothing(cfg, Run(cfg, m, s).m);
    }
  }
}
