/**
 Storage never steers.  Every decode is followed by that of a shadow receiver
 whose rows keep no options and no counts and whose buffers are large enough
 for anything; it differs from the real one in slots alone, and its tables have
 nothing laid over anything.
 */
module Shadows {
  import opened Wire
  import opened Message
  import opened Schema
  import opened Machine
  import opened Chunks
  import F = Floats
  import Utf8

  function ShadowRow(row: Row): Row {
    row.(countAt := -1, which := -1, reset := NO_RESET,
         at := if IsObject(row.kind) then (if row.into then 1 else 0) else row.at)
  }

  function ShadowTable(t: Table): Table {
    Table(map id | id in t.rows :: ShadowRow(t.rows[id]), t.closed)
  }

  function Shadow(cfg: Config): Config {
    cfg.(tables := seq(|cfg.tables|, i requires 0 <= i < |cfg.tables| => ShadowTable(cfg.tables[i])))
  }

  function ShadowPhase(p: Phase): Phase {
    if p.Take? && p.row.Some? then Take(p.id, Some(ShadowRow(p.row.value))) else p
  }

  /** The shadow's two object slots: one for values built, one with room for any payload. */
  predicate Roomy(objects: seq<Obj>) {
    |objects| == 2 && objects[1].Buffer? && |objects[1].bytes| >= FIXLEN_MAX
  }

  predicate Shades(m: M, n: M) {
    && n.phase == ShadowPhase(m.phase) && n.pending == m.pending && n.table == m.table && n.visitor == m.visitor
    && n.scopes == m.scopes && n.log == m.log && |n.words| == |m.words| && Roomy(n.objects)
  }

  predicate Declined(o: Out) {
    o.Stop? && o.why.Refused?
  }

  /** Unless storage was refused, the shadow does what the machine does. */
  predicate Follows(o: Out, p: Out) {
    Declined(o) ||
    match o
    case Next(m, used) => p.Next? && p.used == used && Shades(m, p.m)
    case Wait(m, used) => p.Wait? && p.used == used && Shades(m, p.m)
    case Stop(m, why) => p.Stop? && p.why == why && p.m.log == m.log
  }

  lemma ShadowSlots(row: Row, nwords: nat, nobjects: nat)
    requires SlotsOk(row, nwords, nobjects)
    ensures SlotsOk(ShadowRow(row), nwords, 2)
  {
  }

  lemma ShadowConfig(cfg: Config, nwords: nat, nobjects: nat)
    requires ConfigOk(cfg, nwords, nobjects)
    ensures ConfigOk(Shadow(cfg), nwords, 2) && Unlaid(Shadow(cfg))
  {
    var s := Shadow(cfg);
    forall t, id | 0 <= t < |s.tables| && id in s.tables[t].rows
      ensures s.tables[t].rows[id].id == id && RowOk(s.tables[t].rows[id], |s.tables|, nwords, 2)
    {
      assert RowOk(cfg.tables[t].rows[id], |cfg.tables|, nwords, nobjects);
    }
  }

  lemma {:induction false} ShadowScopes(cfg: Config, scopes: seq<Frame>, table: Option<nat>, visitor: Option<int>)
    ensures ScopesOk(Shadow(cfg), scopes, table, visitor) <==> ScopesOk(cfg, scopes, table, visitor)
    decreases |scopes|
  {
    if scopes != [] {
      var f := scopes[|scopes| - 1];
      ShadowScopes(cfg, scopes[..|scopes| - 1], f.table, f.visitor);
    }
  }

  lemma ShadowOk(cfg: Config, m: M, n: M)
    requires Ok(cfg, m) && Shades(m, n)
    ensures Ok(Shadow(cfg), n)
  {
    ShadowConfig(cfg, |m.words|, |m.objects|);
    ShadowScopes(cfg, m.scopes, m.table, m.visitor);
    hide TablesOk, ScopesOk;
    if m.phase.Take? && m.phase.row.Some? {
      ShadowSlots(m.phase.row.value, |m.words|, |m.objects|);
    }
  }

  lemma ShadowLookup(cfg: Config, table: Option<nat>, id: nat, wt: nat, sub: int)
    ensures
      var row, shadow := Lookup(cfg, table, id, wt, sub), Lookup(Shadow(cfg), table, id, wt, sub);
      && (row.Some? <==> shadow.Some?) && (row.Some? ==> shadow.value == ShadowRow(row.value))
      && (Mistyped(cfg, table, id, wt, sub) <==> Mistyped(Shadow(cfg), table, id, wt, sub))
      && (Closed(cfg, table) <==> Closed(Shadow(cfg), table))
  {
  }

  lemma ObjectFollows(m: M, n: M, row: Row, s: seq<byte>)
    requires SlotsOk(row, |m.words|, |m.objects|) && SlotsOk(ShadowRow(row), |n.words|, |n.objects|) && Shades(m, n)
    requires IsObject(row.kind) && Bare(m.pending).Payload? && Announced(Bare(m.pending))
    ensures Follows(TakeObject(m, row, s), TakeObject(n, ShadowRow(row), s))
  {
    hide Utf8.Valid, ResetOk;
  }

  lemma ArrayFollows(m: M, n: M, row: Row, s: seq<byte>)
    requires SlotsOk(row, |m.words|, |m.objects|) && SlotsOk(ShadowRow(row), |n.words|, |n.objects|) && Shades(m, n)
    requires IsArray(row.kind) && PendingOk(m.pending) && Announced(Bare(m.pending))
    requires WireTag(row.kind) == TagOf(Bare(m.pending))
    requires m.pending == Bare(m.pending) && Settle(m.pending, row.cap).Some?
    ensures Follows(TakeReady(m, row, s), TakeReady(n, ShadowRow(row), s))
  {
    hide ReadElems, ResetOk, Fill, Slots, Truths, F.Elements;
  }

  lemma ReadyFollows(m: M, n: M, row: Row, s: seq<byte>)
    requires Chunks.Ready(m, row) && SlotsOk(ShadowRow(row), |n.words|, |n.objects|) && Shades(m, n)
    ensures Chunks.Ready(n, ShadowRow(row))
    ensures Follows(TakeReady(m, row, s), TakeReady(n, ShadowRow(row), s))
  {
    hide TakeObject, TakeInts, TakeFloats, ReadVarint, ResetOk, F.Element;
    if IsObject(row.kind) {
      ObjectFollows(m, n, row, s);
    } else if IsArray(row.kind) {
      ArrayFollows(m, n, row, s);
    }
  }

  lemma MappedFollows(m: M, n: M, row: Row, s: seq<byte>)
    requires Takable(m, row) && SlotsOk(ShadowRow(row), |n.words|, |n.objects|) && Shades(m, n)
    ensures Follows(TakeMapped(m, row, s), TakeMapped(n, ShadowRow(row), s))
  {
    hide TakeReady, SlotsOk, ResetWords, ResetObjects, ResetInto;
    var (picked, fits) := Select(m, row);
    var settled := Settle(m.pending, row.Declared());
    assert Select(n, ShadowRow(row)) == (n, true);
    if fits && settled.Some? {
      ReadyFollows(picked.(pending := settled.value), n.(pending := settled.value), row, s);
    }
  }

  lemma VisitFollows(cfg: Config, m: M, n: M, id: nat, s: seq<byte>)
    requires m.visitor.Some? && Announced(Bare(m.pending)) && Shades(m, n)
    requires m.phase.Take? && m.phase.row.None?
    ensures Follows(Visit(cfg, m, id, s), Visit(Shadow(cfg), n, id, s))
  {
    hide ReadVarint, VisitPayload, VisitInts, VisitFloats;
    match Bare(m.pending)
    case Scalar(_) =>
    case Payload(st, len) => PayloadFollows(cfg, m, n, id, st, len, s);
    case VArray(signed, count) => IntsFollow(cfg, m, n, id, signed, count, s);
    case FArray(st, count) => FloatsFollow(cfg, m, n, id, st, count, s);
  }

  lemma PayloadFollows(cfg: Config, m: M, n: M, id: nat, st: nat, len: nat, s: seq<byte>)
    requires m.visitor.Some? && !Bare(m.pending).Limit? && Shades(m, n) && m.phase.Take? && m.phase.row.None?
    ensures Follows(VisitPayload(cfg, m, id, st, len, s), VisitPayload(Shadow(cfg), n, id, st, len, s))
  {
    hide Utf8.Valid, BytesFit;
  }

  lemma IntsFollow(cfg: Config, m: M, n: M, id: nat, signed: bool, count: nat, s: seq<byte>)
    requires m.visitor.Some? && !Bare(m.pending).Limit? && Shades(m, n) && m.phase.Take? && m.phase.row.None?
    ensures Follows(VisitInts(cfg, m, id, signed, count, s), VisitInts(Shadow(cfg), n, id, signed, count, s))
  {
    hide ReadElems, IntsFit;
  }

  lemma FloatsFollow(cfg: Config, m: M, n: M, id: nat, st: nat, count: nat, s: seq<byte>)
    requires m.visitor.Some? && !Bare(m.pending).Limit? && Shades(m, n) && m.phase.Take? && m.phase.row.None?
    ensures Follows(VisitFloats(cfg, m, id, st, count, s), VisitFloats(Shadow(cfg), n, id, st, count, s))
  {
    hide FloatsFit;
  }

  lemma SkipFollows(m: M, n: M, s: seq<byte>)
    requires PendingOk(m.pending) && m.pending != Nothing && Shades(m, n) && !m.phase.Take?
    ensures Follows(SkipPending(m, s), SkipPending(n, s))
  {
    hide ReadVarint, DropVarints;
  }

  /** The shadow takes the same turn, unless storage is refused. */
  predicate TurnFollows(t: Turn, u: Turn) {
    if t.Go? then u.Go? && Shades(t.m, u.m)
    else t.why.Refused? || (u.Die? && u.why == t.why && u.m.log == t.m.log)
  }

  lemma CloseFollows(m: M, n: M)
    requires m.scopes != [] && Shades(m, n) && !m.phase.Take?
    ensures Shades(CloseScope(m), CloseScope(n))
  {
  }

  lemma FreeSelect(n: M, row: Row)
    requires SlotsOk(ShadowRow(row), |n.words|, |n.objects|)
    ensures Select(n, ShadowRow(row)) == (n, true)
  {
  }

  lemma EnterRowFollows(m: M, n: M, row: Row)
    requires SlotsOk(row, |m.words|, |m.objects|) && SlotsOk(ShadowRow(row), |n.words|, |n.objects|)
    requires Shades(m, n) && !m.phase.Take?
    ensures TurnFollows(EnterRow(m, row), EnterRow(n, ShadowRow(row)))
  {
    FreeSelect(n, row);
    hide Select, SlotsOk;
  }

  lemma EnterHandlerFollows(cfg: Config, m: M, n: M, id: nat)
    requires Shades(m, n) && !m.phase.Take?
    ensures Shades(EnterHandler(cfg, m, id), EnterHandler(Shadow(cfg), n, id))
  {
  }

  lemma OfferFollows(cfg: Config, m: M, n: M, id: nat, wt: nat, sub: int)
    requires Announced(Bare(m.pending)) && PendingOk(m.pending) && Shades(m, n) && !m.phase.Take?
    ensures TurnFollows(Offer(cfg, m, id, wt, sub), Offer(Shadow(cfg), n, id, wt, sub))
  {
    hide HandlerBound, Settle, Shadow;
    var asked, shadowed := AskWanted(m, id, wt, sub), AskWanted(n, id, wt, sub);
    assert Shades(asked, shadowed) && Shades(AskBound(asked, id), AskBound(shadowed, id));
    SameHandler(cfg, m, n, id);
    SameHandler(cfg, asked, shadowed, id);
  }

  lemma DispatchFollows(cfg: Config, m: M, n: M, wt: nat, id: nat, sub: int)
    requires Ok(cfg, m) && Ok(Shadow(cfg), n) && Shades(m, n) && m.phase == Walk && wt < 8 && id <= ID_MAX
    requires wt == SEQUENCE_END ==> m.scopes != []
    requires wt < SEQUENCE_START ==> Announced(Bare(m.pending))
    ensures TurnFollows(Dispatch(cfg, m, wt, id, sub), Dispatch(Shadow(cfg), n, wt, id, sub))
  {
    hide Lookup, ScopesOk, ConfigOk, Mistyped, Closed, EnterRow, EnterHandler, Offer, CloseScope, Shadow, SlotsOk;
    var row := Lookup(cfg, m.table, id, wt, sub);
    ShadowLookup(cfg, m.table, id, wt, sub);
    if wt == SEQUENCE_END {
      CloseFollows(m, n);
    } else if row.Some? {
      RowNamed(cfg, m, id, wt, sub);
      RowNamed(Shadow(cfg), n, id, wt, sub);
      EnterRowFollows(m, n, row.value);
    } else if wt == SEQUENCE_START {
      EnterHandlerFollows(cfg, m, n, id);
    } else {
      OfferFollows(cfg, m, n, id, wt, sub);
    }
  }

  lemma RowNamed(cfg: Config, m: M, id: nat, wt: nat, sub: int)
    requires Ok(cfg, m)
    ensures
      var row := Lookup(cfg, m.table, id, wt, sub);
      row.Some? ==> SlotsOk(row.value, |m.words|, |m.objects|)
  {
    var row := Lookup(cfg, m.table, id, wt, sub);
    if row.Some? {
      assert RowOk(row.value, |cfg.tables|, |m.words|, |m.objects|);
    }
  }

  lemma SameHandler(cfg: Config, m: M, n: M, id: nat)
    requires Shades(m, n)
    ensures Shadow(cfg).handler == cfg.handler
    ensures m.visitor.Some? ==> HandlerBound(Shadow(cfg), n, id) == HandlerBound(cfg, m, id)
  {
  }

  /** One step of the machine, and one of its shadow. */
  lemma StepFollows(cfg: Config, m: M, n: M, s: seq<byte>)
    requires Ok(cfg, m) && Ok(Shadow(cfg), n) && Shades(m, n)
    ensures Follows(Step(cfg, m, s), Step(Shadow(cfg), n, s))
  {
    hide TakeMapped, Visit, ParseHead, Dispatch, SkipPending, ScopesOk, TablesOk, Shadow;
    match m.phase
    case Take(id, row) =>
      if row.Some? {
        RowTakable(cfg, m);
        RowTakable(Shadow(cfg), n);
        MappedFollows(m, n, row.value, s);
      } else {
        VisitFollows(cfg, m, n, id, s);
      }
    case _ =>
      if m.pending != Nothing {
        SkipFollows(m, n, s);
      } else if s != [] {
        HeadFollows(cfg, m, n, s);
      }
  }

  lemma SameHead(cfg: Config, s: seq<byte>, depth: nat)
    ensures ParseHead(Shadow(cfg), s, depth) == ParseHead(cfg, s, depth)
  {
    hide ReadVarint;
  }

  lemma HeadFollows(cfg: Config, m: M, n: M, s: seq<byte>)
    requires Ok(cfg, m) && Ok(Shadow(cfg), n) && Shades(m, n) && !m.phase.Take? && m.pending == Nothing && s != []
    ensures Follows(Step(cfg, m, s), Step(Shadow(cfg), n, s))
  {
    hide ParseHead, Dispatch, ScopesOk, TablesOk, Shadow;
    SameHead(cfg, s, Depth(m));
    ParseHeadBounds(cfg, s, Depth(m));
    var h := ParseHead(cfg, s, Depth(m));
    if h.Head? && m.phase.Walk? {
      DispatchFollows(cfg, m.(pending := h.pending), n.(pending := h.pending), h.wt, h.id, h.sub);
    }
  }

  /** Storage that is refused is refused silently. */
  lemma DeclinedIsSilent(cfg: Config, m: M, s: seq<byte>)
    requires Ok(cfg, m) && Declined(Step(cfg, m, s))
    ensures Step(cfg, m, s).m.log == m.log
  {
    hide SlotsOk, ScopesOk, TablesOk, Select, ReadVarint, ReadElems, Utf8.Valid, Deliver, ParseHead, Offer, DropVarints;
    hide IntsFit, BytesFit, FloatsFit, EnterRow;
    if !m.phase.Take? && m.pending == Nothing && s != [] && m.phase.Walk? {
      ParseHeadBounds(cfg, s, Depth(m));
      var h := ParseHead(cfg, s, Depth(m));
      if h.Head? && h.wt < SEQUENCE_START {
        OfferShape(cfg, m.(pending := h.pending), h.id, h.wt, h.sub);
      }
      if h.Head? {
        RowNamed(cfg, m, h.id, h.wt, h.sub);
      }
    }
  }

  /** And up to there the shadow heard and was asked the same. */
  predicate Behind(o: Out, p: Out) {
    Declined(o) ==> o.m.log <= p.m.log
  }

  lemma {:induction false} RunFollows(cfg: Config, m: M, n: M, s: seq<byte>)
    requires Ok(cfg, m) && Ok(Shadow(cfg), n) && Shades(m, n)
    ensures Follows(Run(cfg, m, s), Run(Shadow(cfg), n, s)) && Behind(Run(cfg, m, s), Run(Shadow(cfg), n, s))
    decreases Measure(m, s)
  {
    if Declined(Step(cfg, m, s)) {
      DeclinedIsSilent(cfg, m, s);
    }
    assert n.log == m.log;
    RunLogGrows(Shadow(cfg), n, s);
    hide Step, Ok, Shades, Shadow;
    StepFollows(cfg, m, n, s);
    Unfold(cfg, m, s);
    Unfold(Shadow(cfg), n, s);
    StepSound(cfg, m, s);
    match Step(cfg, m, s)
    case Next(q, used) => RunFollows(cfg, q, Step(Shadow(cfg), n, s).m, s[used..]);
    case _ =>
  }

  // ----- feeds ----------------------------------------------------------------------

  predicate Refusal(d: Decode) {
    d.Dead? && d.why.Refused?
  }

  predicate Shaded(d: Decode, e: Decode) {
    if Refusal(d) then Log(d) <= Log(e)
    else match d
    case Live(m, held) => e.Live? && e.held == held && Shades(m, e.m)
    case Dead(left, why) => e.Dead? && e.why == why && e.left.log == left.log
  }

  lemma FeedFollows(cfg: Config, d: Decode, e: Decode, chunk: seq<byte>)
    requires DecodeOk(cfg, d) && DecodeOk(Shadow(cfg), e) && Shaded(d, e)
    ensures Shaded(Feed(cfg, d, chunk), Feed(Shadow(cfg), e, chunk))
  {
    hide Run, Ok, Shades, Shadow;
    if d.Live? {
      RunFollows(cfg, d.m, e.m, d.held + chunk);
    } else if Refusal(d) && e.Live? {
      RunLogGrows(Shadow(cfg), e.m, e.held + chunk);
    }
  }

  lemma {:induction false} FeedAllFollows(cfg: Config, d: Decode, e: Decode, chunks: seq<seq<byte>>)
    requires DecodeOk(cfg, d) && DecodeOk(Shadow(cfg), e) && Shaded(d, e)
    ensures Shaded(FeedAll(cfg, d, chunks), FeedAll(Shadow(cfg), e, chunks))
    decreases |chunks|
  {
    hide Feed, DecodeOk, Shadow, Shaded;
    if chunks != [] {
      FeedFollows(cfg, d, e, chunks[0]);
      FeedAllFollows(cfg, Feed(cfg, d, chunks[0]), Feed(Shadow(cfg), e, chunks[0]), chunks[1..]);
    }
  }

  /** The two decodes differ in slots alone. */
  predicate SlotsApart(d: Decode, e: Decode) {
    match d
    case Live(m, held) => e.Live? && e.held == held && e.m == m.(words := e.m.words, objects := e.m.objects)
    case Dead(left, why) => e.Dead? && e.why == why && e.left.log == left.log
  }

  /** The shadow of a state. */
  function ShadowOf(m: M): M {
    M(ShadowPhase(m.phase), m.pending, m.table, m.visitor, m.scopes, m.words,
      [Absent, Buffer(seq<byte>(FIXLEN_MAX, _ => 0))], m.log)
  }

  lemma SamePhase(cfg: Config, m: M, n: M, shadow: M)
    requires Ok(cfg, m) && Ok(cfg, n) && Shades(m, shadow) && Shades(n, shadow)
    ensures n == m.(words := n.words, objects := n.objects)
  {
    hide TablesOk, ScopesOk;
  }

  lemma BothShaded(cfg: Config, d: Decode, e: Decode, shadow: Decode)
    requires DecodeOk(cfg, d) && DecodeOk(cfg, e) && Shaded(d, shadow) && Shaded(e, shadow)
    ensures !Refusal(d) && !Refusal(e) ==> SlotsApart(d, e)
    ensures Refusal(d) && !Refusal(e) ==> Log(d) <= Log(e)
    ensures Refusal(e) && !Refusal(d) ==> Log(e) <= Log(d)
    ensures Log(d) <= Log(e) || Log(e) <= Log(d)
  {
    if Refusal(d) && Refusal(e) {
      Comparable(Log(d), Log(e), Log(shadow));
    }
    hide Ok;
    if d.Live? && e.Live? {
      SamePhase(cfg, d.m, e.m, shadow.m);
    }
  }

  lemma Comparable(a: seq<Call>, b: seq<Call>, c: seq<Call>)
    requires a <= c && b <= c
    ensures a <= b || b <= a
  {
    if |a| <= |b| {
      assert b[..|a|] == c[..|a|];
    } else {
      assert a[..|b|] == c[..|b|];
    }
  }

  /**
   On any tables at all, whatever is laid over what: unless storage of the
   caller's is refused, what the handler is told and asked, and in what order,
   the status, the open scopes and the bytes held do not depend on how the
   bytes were cut.  Where storage is refused in one cutting, what was told and
   asked before that is the beginning of what it is in the other.
   */
  lemma ControlInvisible(cfg: Config, d: Decode, chunks: seq<seq<byte>>)
    requires DecodeOk(cfg, d) && chunks != []
    ensures
      var cut, whole := FeedAll(cfg, d, chunks), Feed(cfg, d, Flatten(chunks));
      && (!Refusal(cut) && !Refusal(whole) ==>
            SlotsApart(cut, whole) && StatusOf(cut) == StatusOf(whole) && Log(cut) == Log(whole))
      && (Refusal(cut) && !Refusal(whole) ==> Log(cut) <= Log(whole))
      && (Refusal(whole) && !Refusal(cut) ==> Log(whole) <= Log(cut))
      && (Log(cut) <= Log(whole) || Log(whole) <= Log(cut))
  {
    hide Feed, Shadow, Shaded;
    var e: Decode;
    if d.Live? {
      e := Live(ShadowOf(d.m), d.held);
      ShadowOk(cfg, d.m, ShadowOf(d.m));
      ShadowConfig(cfg, |d.m.words|, |d.m.objects|);
      ShadedFirst(d, e);
      FeedAllFollows(cfg, d, e, chunks);
      FeedFollows(cfg, d, e, Flatten(chunks));
      ChunkingInvisible(Shadow(cfg), e, chunks);
      BothShaded(cfg, FeedAll(cfg, d, chunks), Feed(cfg, d, Flatten(chunks)), Feed(Shadow(cfg), e, Flatten(chunks)));
    } else {
      DeadIsFed(cfg, d, chunks);
    }
  }

  lemma ShadedFirst(d: Decode, e: Decode)
    requires d.Live? && e == Live(ShadowOf(d.m), d.held)
    ensures Shaded(d, e)
  {
  }

  lemma {:induction false} DeadIsFed(cfg: Config, d: Decode, chunks: seq<seq<byte>>)
    requires d.Dead?
    ensures FeedAll(cfg, d, chunks) == d && Feed(cfg, d, Flatten(chunks)) == d
    decreases |chunks|
  {
    if chunks != [] {
      DeadIsFed(cfg, d, chunks[1..]);
    }
  }
}
