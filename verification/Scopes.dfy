/**
 Who hears what.  The hooks of any run, replayed against the handler's own
 answers, are in order: every field goes to whoever is handling the innermost
 open scope, every end to whoever was handling the scope it closes, a child
 handler is heard from its scope's begin to that scope's end and not beyond;
 and a value is handed over right behind the questions about it, each of them
 asked once and answered in its favour.
 */
module Scopes {
  import opened Wire
  import opened Message
  import opened Schema
  import opened Machine
  import R = RoundTrip
  import Chunks
  import F = Floats
  import Utf8

  /** A scope the handler was told of: who was handling outside it, and who inside. */
  datatype Heir = Heir(outer: Option<int>, inner: Option<int>)

  /**
   The scopes open after some hooks, who is handling now, and the last question
   about a value that is due; or hooks out of order.
   */
  datatype Hearing = Hearing(open: seq<Heir>, now: Option<int>, due: Option<Question>) | Disorder

  /** The question right before a value of this kind is handed over. */
  function LastAsked(p: Pending, id: nat): Question {
    match p
    case Payload(st, len) => if st < STRING then Wants(id, FIXLEN, st, len) else Bounds(id, len, FIXLEN, st)
    case VArray(signed, count) => Bounds(id, count, if signed then ARRAY_SIGNED else ARRAY_UNSIGNED, -1)
    case FArray(st, count) => Bounds(id, count, ARRAY_FIXLEN, st)
    case _ => Wants(id, TagOf(p).0, -1, 0)
  }

  /** A control hook, against the handler's answer to it; `before` are the hooks so far. */
  function Answer(cfg: Config, h: Hearing, before: seq<Call>, who: int, q: Question): Hearing
    requires h.Hearing?
  {
    match q
    case Enters(id) =>
      if h.due.Some? || !cfg.handler.enter(who, before, id).Decline? then Disorder else h
    case Wants(id, wt, sub, n) =>
      if h.due.Some? then Disorder
      else h.(due := if cfg.handler.accept(who, before, id, wt, sub, n) then Some(q) else None)
    case Bounds(id, n, wt, sub) =>
      var declared := cfg.handler.bound(who, before, id, n, wt, sub);
      if h.due != Some(Wants(id, wt, sub, n)) then Disorder
      else h.(due := if declared < 0 || n <= declared then Some(q) else None)
  }

  /** Can items of so many bytes hold the integer? */
  predicate Represents(itemSize: nat, signed: bool, v: int) {
    match itemSize
    case 1 => if signed then -0x80 <= v < 0x80 else 0 <= v < 0x100
    case 2 => if signed then -0x8000 <= v < 0x8000 else 0 <= v < 0x1_0000
    case 4 => if signed then -0x8000_0000 <= v < 0x8000_0000 else 0 <= v < 0x1_0000_0000
    case 8 => if signed then -0x8000_0000_0000_0000 <= v < 0x8000_0000_0000_0000 else 0 <= v < 0x1_0000_0000_0000_0000
    case _ => false
  }

  /** A buffer of at least so many items of this size that can be written. */
  predicate Writable(d: Dest, itemSize: nat, count: nat) {
    d.writable && d.itemSize == itemSize && itemSize * count <= d.nbytes
  }

  /**
   A value handed over, against what the handler answered to its announcement:
   `into` says that it was offered a buffer, which then holds the value; a
   string is text, and an integer array's elements are within the width the
   handler declared for it.
   */
  ghost predicate Handed(cfg: Config, before: seq<Call>, who: int, into: bool, e: Event) {
    match e
    case Int(_, signed, v) => !into && Represents(8, signed, v)
    case Fixlen(id, st, payload) =>
      && (st == STRING ==> Utf8.IsText(payload))
      && (if st == FP32 || st == FP64 then !into
          else
            var offer := cfg.handler.place(who, before, id, FIXLEN, st, |payload|);
            into == offer.Some? && (into ==> Writable(offer.value, 1, |payload|)))
    case Ints(id, signed, vs) =>
      var layout := cfg.handler.layout(who, before, id, signed, |vs|);
      && (forall i | 0 <= i < |vs| :: layout.lo <= vs[i] <= layout.hi && Represents(8, signed, vs[i]))
      && into == layout.into.Some?
      && (into ==>
            var d := layout.into.value;
            Writable(d, d.itemSize, |vs|) && d.itemSize in {1, 2, 4, 8} &&
            forall i | 0 <= i < |vs| :: Represents(d.itemSize, signed, vs[i]))
    case Floats(id, st, payload) =>
      var count := FloatCount(st, payload);
      var offer :=
        if st == FP32 && cfg.handler.rawSingles(who) then None
        else cfg.handler.place(who, before, id, ARRAY_FIXLEN, st, count);
      into == offer.Some? && (into ==> Writable(offer.value, 8, count))
    case _ => !into
  }

  /** A typed hook. */
  ghost function Hear(cfg: Config, h: Hearing, before: seq<Call>, who: int, into: bool, e: Event): Hearing
    requires h.Hearing?
  {
    match e
    case Begin(id) =>
      if h.due.Some? then Disorder
      else
        (match cfg.handler.enter(who, before, id)
         case Decline => Disorder
         case Same => Hearing(h.open + [Heir(h.now, h.now)], h.now, None)
         case Child(v) => Hearing(h.open + [Heir(h.now, Some(v))], Some(v), None))
    case End =>
      if h.due.Some? || h.open == [] || h.open[|h.open| - 1].inner != h.now then Disorder
      else Hearing(h.open[..|h.open| - 1], h.open[|h.open| - 1].outer, None)
    case _ =>
      if h.due != Some(LastAsked(R.AnnouncedBy(e), e.id)) || !Handed(cfg, before, who, into, e) then Disorder
      else h.(due := None)
  }

  /** Replays hooks, asking the handler again what it was asked. */
  ghost function Replay(cfg: Config, log: seq<Call>): Hearing {
    if log == [] then Hearing([], cfg.visitor, None)
    else
      var before, c := log[..|log| - 1], log[|log| - 1];
      var h := Replay(cfg, before);
      if h.Disorder? || h.now != Some(c.visitor) then Disorder
      else match c
        case Asked(who, q) => Answer(cfg, h, before, who, q)
        case Call(who, into, e) => Hear(cfg, h, before, who, into, e)
  }

  /** The open scopes a handler was told of, with who handles inside each. */
  function Heirs(scopes: seq<Frame>, who: Option<int>): seq<Heir> {
    if scopes == [] then []
    else
      var f := scopes[|scopes| - 1];
      Heirs(scopes[..|scopes| - 1], f.visitor) + if f.opener.ByTable? then [] else [Heir(f.visitor, who)]
  }

  /** The value the handler has been promised, if there is one, as the last question named it. */
  function Due(m: M): Option<Question> {
    if m.phase.Take? && m.phase.row.None? then Some(LastAsked(Bare(m.pending), m.phase.id)) else None
  }

  /** The machine's scopes are those the hooks so far leave open, and its handler is the one handling. */
  ghost predicate InOrder(cfg: Config, m: M) {
    Replay(cfg, m.log) == Hearing(Heirs(m.scopes, m.visitor), m.visitor, Due(m))
  }

  lemma ReplayOne(cfg: Config, log: seq<Call>, c: Call)
    requires Replay(cfg, log).Hearing? && Replay(cfg, log).now == Some(c.visitor)
    ensures
      var h := Replay(cfg, log);
      Replay(cfg, log + [c]) ==
      if c.Asked? then Answer(cfg, h, log, c.visitor, c.question) else Hear(cfg, h, log, c.visitor, c.into, c.event)
  {
    assert (log + [c])[..|log|] == log;
  }

  lemma HeirsGrow(scopes: seq<Frame>, f: Frame, who: Option<int>)
    ensures Heirs(scopes + [f], who) ==
            Heirs(scopes, f.visitor) + if f.opener.ByTable? then [] else [Heir(f.visitor, who)]
  {
    assert (scopes + [f])[..|scopes|] == scopes;
  }

  /** An end marker closes to whoever was handling that scope, and to no one else. */
  lemma CloseInOrder(cfg: Config, m: M)
    requires Ok(cfg, m) && InOrder(cfg, m) && m.scopes != [] && m.phase == Walk
    ensures InOrder(cfg, CloseScope(m))
  {
    hide TablesOk, Replay;
    var f, outer := m.scopes[|m.scopes| - 1], m.scopes[..|m.scopes| - 1];
    if !f.opener.ByTable? {
      ReplayOne(cfg, m.log, Call(m.visitor.value, false, End));
      var above := Heirs(outer, f.visitor);
      assert (above + [Heir(f.visitor, m.visitor)])[..|above|] == above;
    } else {
      assert Heirs(outer, f.visitor) + [] == Heirs(outer, f.visitor);
    }
  }

  lemma EnterInOrder(cfg: Config, m: M, id: nat)
    requires InOrder(cfg, m) && m.phase == Walk
    ensures InOrder(cfg, EnterHandler(cfg, m, id))
  {
    hide Replay;
    if m.visitor.Some? {
      ReplayOne(cfg, m.log, Call(m.visitor.value, false, Begin(id)));
      ReplayOne(cfg, m.log, Asked(m.visitor.value, Enters(id)));
      match cfg.handler.enter(m.visitor.value, m.log, id)
      case Decline =>
      case Same => HeirsGrow(m.scopes, Frame(m.table, m.visitor, ByHandler), m.visitor);
      case Child(v) => HeirsGrow(m.scopes, Frame(m.table, m.visitor, ByChild), Some(v));
    }
  }

  lemma RowInOrder(cfg: Config, m: M, row: Row)
    requires InOrder(cfg, m) && SlotsOk(row, |m.words|, |m.objects|)
    ensures EnterRow(m, row).Go? ==> InOrder(cfg, EnterRow(m, row).m)
  {
    hide Replay, Select, SlotsOk;
    HeirsGrow(m.scopes, Frame(m.table, m.visitor, ByTable), m.visitor);
    assert Heirs(m.scopes, m.visitor) + [] == Heirs(m.scopes, m.visitor);
  }

  /** The questions about a field, and what the answers make of it. */
  lemma OfferInOrder(cfg: Config, m: M, id: nat, wt: nat, sub: int)
    requires PendingOk(m.pending) && m.phase == Walk && InOrder(cfg, m)
    requires Announced(Bare(m.pending)) && TagOf(Bare(m.pending)) == (wt, sub)
    ensures
      var t := Offer(cfg, m, id, wt, sub);
      if t.Go? then InOrder(cfg, t.m) else Replay(cfg, t.m.log).Hearing?
  {
    hide Replay, Heirs;
    if m.visitor.Some? {
      var who, bare := m.visitor.value, Bare(m.pending);
      var asked := AskWanted(m, id, wt, sub);
      ReplayOne(cfg, m.log, Asked(who, Wants(id, wt, sub, Size(bare))));
      if Accepts(cfg, m, id, wt, sub) && AskBound(asked, id) != asked {
        ReplayOne(cfg, asked.log, Asked(who, LastAsked(bare, id)));
      }
    }
  }

  lemma DispatchInOrder(cfg: Config, m: M, wt: nat, id: nat, sub: int)
    requires Ok(cfg, m) && m.phase == Walk && InOrder(cfg, m) && wt < 8 && id <= ID_MAX
    requires wt == SEQUENCE_END ==> m.scopes != []
    requires wt < SEQUENCE_START ==> Announced(Bare(m.pending)) && TagOf(Bare(m.pending)) == (wt, sub)
    ensures
      var t := Dispatch(cfg, m, wt, id, sub);
      if t.Go? then InOrder(cfg, t.m) else Replay(cfg, t.m.log).Hearing?
  {
    if wt == SEQUENCE_END {
      CloseInOrder(cfg, m);
    } else {
      var row := Lookup(cfg, m.table, id, wt, sub);
      if row.Some? && wt == SEQUENCE_START {
        assert RowOk(row.value, |cfg.tables|, |m.words|, |m.objects|);
        RowInOrder(cfg, m, row.value);
      }
      if wt < SEQUENCE_START {
        OfferInOrder(cfg, m, id, wt, sub);
      }
      hide Lookup, EnterRow, EnterHandler, Replay, Offer, Ok, Heirs;
      EnterInOrder(cfg, m, id);
    }
  }

  /** Taking a field a table names is no business of the handler's. */
  lemma MappedIsSilent(m: M, row: Row, s: seq<byte>)
    requires SlotsOk(row, |m.words|, |m.objects|) && !row.kind.KSequence?
    requires PendingOk(m.pending) && Announced(Bare(m.pending)) && WireTag(row.kind) == TagOf(Bare(m.pending))
    ensures TakeMapped(m, row, s).m.log == m.log
  {
    hide SlotsOk, Select, ReadVarint, ReadElems, Slots, Truths, F.Elements, F.Element;
  }

  /** Handing a value over is one call, to the handler in charge, of the value its header announced. */
  lemma VisitIsOneCall(cfg: Config, m: M, id: nat, s: seq<byte>)
    requires m.visitor.Some? && Announced(Bare(m.pending))
    ensures
      var o := Visit(cfg, m, id, s);
      if o.Next? then
        |o.m.log| == |m.log| + 1 && o.m.log[..|m.log|] == m.log
        && var c := o.m.log[|m.log|];
           && c.Call? && c.visitor == m.visitor.value && !c.event.Begin? && !c.event.End?
           && c.event.id == id && R.AnnouncedBy(c.event) == Bare(m.pending)
           && Handed(cfg, m.log, c.visitor, c.into, c.event)
      else o.m.log == m.log
  {
    hide ReadVarint, ReadElems, Utf8.Valid, Utf8.IsText, IntsFit, Whole, FloatCount, F.Packed, Represents, Cooked;
    match Bare(m.pending)
    case Scalar(signed) =>
      ReadVarintBounds(s);
      if ReadVarint(s).Got? {
        EightBytes(signed, Cooked(signed, ReadVarint(s).value));
      }
    case Payload(_, len) =>
      if len <= |s| {
        Utf8.ValidIff(s[..len]);
      }
    case VArray(signed, count) =>
      var l := cfg.handler.layout(m.visitor.value, m.log, id, signed, count);
      ReadElemsBounds(s, count, signed, l.lo, l.hi);
      ElementsHanded(ReadElems(s, count, signed, l.lo, l.hi).values, signed, count, l);
    case FArray(st, count) =>
      var len := F.Packed(Width(st), count);
      if len <= |s| {
        R.PackedWhole(st, count, s[..len]);
      }
  }

  lemma EightBytes(signed: bool, v: int)
    ensures ValueOk(signed, v) <==> Represents(8, signed, v)
  {
  }

  /** Elements within the declared width are held by every item size that width fits. */
  lemma ElementsHanded(vs: seq<int>, signed: bool, count: nat, l: Layout)
    requires forall i | 0 <= i < |vs| :: ValueOk(signed, vs[i]) && l.lo <= vs[i] <= l.hi
    ensures forall i | 0 <= i < |vs| :: Represents(8, signed, vs[i])
    ensures l.into.Some? && IntsFit(l.into.value, signed, l.lo, l.hi, count) ==>
      var d := l.into.value;
      Writable(d, d.itemSize, count) && d.itemSize in {1, 2, 4, 8} &&
      forall i | 0 <= i < |vs| :: Represents(d.itemSize, signed, vs[i])
  {
  }

  lemma TakeInOrder(cfg: Config, m: M, s: seq<byte>)
    requires Ok(cfg, m) && m.phase.Take? && InOrder(cfg, m)
    ensures
      var o := Step(cfg, m, s);
      if o.Stop? then o.m.log == m.log else InOrder(cfg, o.m)
  {
    hide TakeMapped, Visit, Replay, Heirs, ScopesOk, TablesOk, R.AnnouncedBy, LastAsked;
    StepSound(cfg, m, s);
    if m.phase.row.Some? {
      MappedIsSilent(m, m.phase.row.value, s);
    } else {
      VisitIsOneCall(cfg, m, m.phase.id, s);
      var o := Visit(cfg, m, m.phase.id, s);
      if o.Next? {
        ReplayOne(cfg, m.log, o.m.log[|m.log|]);
        assert o.m.log == m.log + [o.m.log[|m.log|]];
      }
    }
  }

  /** Every step keeps the calls in order. */
  lemma StepInOrder(cfg: Config, m: M, s: seq<byte>)
    requires Ok(cfg, m) && InOrder(cfg, m)
    ensures
      var o := Step(cfg, m, s);
      if o.Stop? then Replay(cfg, o.m.log).Hearing? else InOrder(cfg, o.m)
  {
    hide ParseHead, Dispatch, Ok, Replay, TakeMapped, Visit;
    if m.phase.Take? {
      TakeInOrder(cfg, m, s);
    } else if m.pending != Nothing {
      SkipIsSilent(cfg, m, s);
    } else if s != [] {
      HeadInOrder(cfg, m, s);
    }
  }

  lemma SkipIsSilent(cfg: Config, m: M, s: seq<byte>)
    requires Ok(cfg, m) && !m.phase.Take? && m.pending != Nothing
    ensures Step(cfg, m, s).m == m.(pending := Step(cfg, m, s).m.pending)
  {
  }

  lemma HeadInOrder(cfg: Config, m: M, s: seq<byte>)
    requires Ok(cfg, m) && InOrder(cfg, m) && !m.phase.Take? && m.pending == Nothing && s != []
    ensures
      var o := Step(cfg, m, s);
      if o.Stop? then Replay(cfg, o.m.log).Hearing? else InOrder(cfg, o.m)
  {
    hide ParseHead, Dispatch, Replay;
    ParseHeadBounds(cfg, s, Machine.Depth(m));
    match ParseHead(cfg, s, Machine.Depth(m))
    case Head(wt, id, sub, pending, used) =>
      if m.phase.Walk? {
        DispatchInOrder(cfg, m.(pending := pending), wt, id, sub);
      }
    case _ =>
  }

  lemma {:induction false} RunInOrder(cfg: Config, m: M, s: seq<byte>)
    requires Ok(cfg, m) && InOrder(cfg, m)
    ensures
      var o := Run(cfg, m, s);
      Replay(cfg, o.m.log).Hearing? && (o.Wait? ==> InOrder(cfg, o.m))
    decreases Measure(m, s)
  {
    hide Step, Ok, Replay, Heirs;
    StepInOrder(cfg, m, s);
    Unfold(cfg, m, s);
    StepSound(cfg, m, s);
    match Step(cfg, m, s)
    case Next(n, used) => RunInOrder(cfg, n, s[used..]);
    case _ =>
  }

  ghost predicate DecodeInOrder(cfg: Config, d: Chunks.Decode) {
    Replay(cfg, Chunks.Log(d)).Hearing? && (d.Live? ==> InOrder(cfg, d.m))
  }

  lemma StartInOrder(cfg: Config, words: seq<word>, objects: seq<Obj>)
    ensures DecodeInOrder(cfg, Chunks.Live(Start(cfg, words, objects), []))
  {
  }

  /**
   Over any feeds, and also where the decode was cut short by malformed input
   or by a limit, the calls made are in order; and once the message is COMPLETE
   every begin has had its end, from the handler that was in charge of it.
   */
  lemma {:induction false} CallsStayInOrder(cfg: Config, d: Chunks.Decode, chunks: seq<seq<byte>>)
    requires Chunks.DecodeOk(cfg, d) && DecodeInOrder(cfg, d)
    ensures DecodeInOrder(cfg, Chunks.FeedAll(cfg, d, chunks))
    ensures
      var r := Chunks.FeedAll(cfg, d, chunks);
      Chunks.StatusOf(r).Complete? ==> Replay(cfg, Chunks.Log(r)).open == [] && Replay(cfg, Chunks.Log(r)).due.None?
    decreases |chunks|
  {
    hide Replay, Ok;
    if chunks != [] {
      FeedInOrder(cfg, d, chunks[0]);
      CallsStayInOrder(cfg, Chunks.Feed(cfg, d, chunks[0]), chunks[1..]);
    }
  }

  /** The same from the start: nothing that happens to a decode puts its calls out of order. */
  lemma EveryDecodeInOrder(cfg: Config, words: seq<word>, objects: seq<Obj>, chunks: seq<seq<byte>>)
    requires Ok(cfg, Start(cfg, words, objects))
    ensures
      var r := Chunks.FeedAll(cfg, Chunks.Live(Start(cfg, words, objects), []), chunks);
      && Replay(cfg, Chunks.Log(r)).Hearing?
      && (Chunks.StatusOf(r).Complete? ==>
            Replay(cfg, Chunks.Log(r)).open == [] && Replay(cfg, Chunks.Log(r)).due.None?)
  {
    hide Replay, Ok, InOrder;
    StartInOrder(cfg, words, objects);
    CallsStayInOrder(cfg, Chunks.Live(Start(cfg, words, objects), []), chunks);
  }

  lemma FeedInOrder(cfg: Config, d: Chunks.Decode, chunk: seq<byte>)
    requires Chunks.DecodeOk(cfg, d) && DecodeInOrder(cfg, d)
    ensures DecodeInOrder(cfg, Chunks.Feed(cfg, d, chunk))
  {
    hide Replay, Ok, Run;
    if d.Live? {
      RunInOrder(cfg, d.m, d.held + chunk);
    }
  }

  // ----- closed tables ----------------------------------------------------------------

  /** A value promised to the handler was met outside every closed table. */
  predicate Discreet(cfg: Config, m: M) {
    m.phase.Take? && m.phase.row.None? ==> !Closed(cfg, m.table)
  }

  lemma DispatchDiscreet(cfg: Config, m: M, wt: nat, id: nat, sub: int)
    requires Ok(cfg, m) && m.phase == Walk && wt < 8 && id <= ID_MAX
    requires wt == SEQUENCE_END ==> m.scopes != []
    requires wt < SEQUENCE_START ==> Announced(Bare(m.pending))
    ensures
      var t := Dispatch(cfg, m, wt, id, sub);
      && (t.Go? ==> Discreet(cfg, t.m))
      && (Closed(cfg, m.table) ==> t.m.log == m.log)
  {
    hide Select, Settle, HandlerBound, TablesOk;
  }

  /**
   Inside a closed table the handler hears nothing: no step taken while one is
   current makes a call, be the field named by it, mistyped or unknown.
   */
  lemma ClosedIsSilent(cfg: Config, m: M, s: seq<byte>)
    requires Ok(cfg, m) && Discreet(cfg, m)
    ensures
      var o := Step(cfg, m, s);
      && (!o.Stop? ==> Discreet(cfg, o.m))
      && (Closed(cfg, m.table) ==> o.m.log == m.log)
  {
    hide ParseHead, Dispatch, TakeMapped, Visit, SkipPending, ScopesOk, TablesOk, Closed;
    if m.phase.Take? {
      if m.phase.row.Some? {
        MappedIsSilent(m, m.phase.row.value, s);
      }
    } else if m.pending != Nothing {
      SkipIsSilent(cfg, m, s);
    } else if s != [] {
      ParseHeadBounds(cfg, s, Machine.Depth(m));
      if ParseHead(cfg, s, Machine.Depth(m)).Head? && m.phase.Walk? {
        var h := ParseHead(cfg, s, Machine.Depth(m));
        DispatchDiscreet(cfg, m.(pending := h.pending), h.wt, h.id, h.sub);
      }
    }
  }

  /** The same receiver with another handler in place of its own. */
  function With(cfg: Config, h: Handler): Config {
    cfg.(handler := h)
  }

  lemma {:induction false} ScopesWith(cfg: Config, h: Handler, scopes: seq<Frame>, table: Option<nat>, who: Option<int>)
    ensures ScopesOk(With(cfg, h), scopes, table, who) <==> ScopesOk(cfg, scopes, table, who)
    decreases |scopes|
  {
    if scopes != [] {
      var f := scopes[|scopes| - 1];
      ScopesWith(cfg, h, scopes[..|scopes| - 1], f.table, f.visitor);
    }
  }

  lemma OkWith(cfg: Config, h: Handler, m: M)
    requires Ok(cfg, m)
    ensures Ok(With(cfg, h), m)
  {
    ScopesWith(cfg, h, m.scopes, m.table, m.visitor);
    hide ScopesOk, TablesOk;
  }

  lemma HeadWith(cfg: Config, h: Handler, s: seq<byte>, depth: nat)
    ensures ParseHead(With(cfg, h), s, depth) == ParseHead(cfg, s, depth)
  {
    hide ReadVarint;
  }

  lemma DispatchUnheard(cfg: Config, h: Handler, m: M, wt: nat, id: nat, sub: int)
    requires Ok(cfg, m) && Ok(With(cfg, h), m) && m.phase == Walk && wt < 8 && id <= ID_MAX && Closed(cfg, m.table)
    requires wt == SEQUENCE_END ==> m.scopes != []
    requires wt < SEQUENCE_START ==> Announced(Bare(m.pending))
    ensures Dispatch(With(cfg, h), m, wt, id, sub) == Dispatch(cfg, m, wt, id, sub)
  {
    hide Select, EnterRow, Settle, ScopesOk, TablesOk, CloseScope;
    assert Lookup(With(cfg, h), m.table, id, wt, sub) == Lookup(cfg, m.table, id, wt, sub);
  }

  /** Inside a closed table no step asks the handler anything: any other handler makes it the same step. */
  lemma ClosedAsksNothing(cfg: Config, h: Handler, m: M, s: seq<byte>)
    requires Ok(cfg, m) && Discreet(cfg, m) && Closed(cfg, m.table)
    ensures Ok(With(cfg, h), m) && Step(With(cfg, h), m, s) == Step(cfg, m, s)
  {
    hide ParseHead, Dispatch, TakeMapped, Visit, SkipPending, ScopesOk, TablesOk, Closed;
    OkWith(cfg, h, m);
    HeadWith(cfg, h, s, Machine.Depth(m));
    ParseHeadBounds(cfg, s, Machine.Depth(m));
    if !m.phase.Take? && m.pending == Nothing && s != [] {
      var head := ParseHead(cfg, s, Machine.Depth(m));
      if head.Head? && m.phase.Walk? {
        OkWith(cfg, h, m.(pending := head.pending));
        DispatchUnheard(cfg, h, m.(pending := head.pending), head.wt, head.id, head.sub);
      }
    }
  }

  /** What the feeds leave behind is discreet again. */
  lemma {:induction false} RunDiscreet(cfg: Config, m: M, s: seq<byte>)
    requires Ok(cfg, m) && Discreet(cfg, m)
    ensures Run(cfg, m, s).Wait? ==> Discreet(cfg, Run(cfg, m, s).m)
    decreases Measure(m, s)
  {
    hide Step, Ok, Discreet;
    ClosedIsSilent(cfg, m, s);
    Unfold(cfg, m, s);
    StepSound(cfg, m, s);
    match Step(cfg, m, s)
    case Next(n, used) => RunDiscreet(cfg, n, s[used..]);
    case _ =>
  }

  lemma {:induction false} FeedsDiscreet(cfg: Config, d: Chunks.Decode, chunks: seq<seq<byte>>)
    requires Chunks.DecodeOk(cfg, d) && (d.Live? ==> Discreet(cfg, d.m))
    ensures
      var r := Chunks.FeedAll(cfg, d, chunks);
      r.Live? ==> Discreet(cfg, r.m)
    decreases |chunks|
  {
    hide Run, Ok, Discreet;
    if chunks != [] {
      if d.Live? {
        RunDiscreet(cfg, d.m, d.held + chunks[0]);
      }
      FeedsDiscreet(cfg, Chunks.Feed(cfg, d, chunks[0]), chunks[1..]);
    }
  }

  lemma {:induction false} VisitedDiscreet(cfg: Config, m: M, s: seq<byte>, n: M, t: seq<byte>)
    requires Ok(cfg, m) && Discreet(cfg, m) && Chunks.Visits(cfg, m, s, n, t)
    ensures Ok(cfg, n) && Discreet(cfg, n)
    decreases Measure(m, s)
  {
    hide Step, Ok, Discreet;
    StepSound(cfg, m, s);
    ClosedIsSilent(cfg, m, s);
    if !(n == m && t == s) {
      var o := Step(cfg, m, s);
      VisitedDiscreet(cfg, o.m, s[o.used..], n, t);
    }
  }

  /**
   Of every decode, at every step of every feed: while the current table is a
   closed one the handler is neither told nor asked anything.  The calls stay
   as they are, and any other handler would have made it the same step.
   */
  lemma ClosedKeepsHandlerOut(
    cfg: Config, words: seq<word>, objects: seq<Obj>, chunks: seq<seq<byte>>, chunk: seq<byte>,
    n: M, t: seq<byte>, h: Handler)
    requires Ok(cfg, Start(cfg, words, objects))
    requires
      var d := Chunks.FeedAll(cfg, Chunks.Live(Start(cfg, words, objects), []), chunks);
      d.Live? && Chunks.Visits(cfg, d.m, d.held + chunk, n, t)
    requires Closed(cfg, n.table)
    ensures Ok(cfg, n) && Step(cfg, n, t).m.log == n.log
    ensures Ok(With(cfg, h), n) && Step(With(cfg, h), n, t) == Step(cfg, n, t)
  {
    hide Step, Ok, Chunks.Visits;
    var first := Chunks.Live(Start(cfg, words, objects), []);
    FeedsDiscreet(cfg, first, chunks);
    var d := Chunks.FeedAll(cfg, first, chunks);
    VisitedDiscreet(cfg, d.m, d.held + chunk, n, t);
    ClosedIsSilent(cfg, n, t);
    ClosedAsksNothing(cfg, h, n, t);
  }
}
