/**
 Unions over whole runs.  Every which slot holds the option that arrived last,
 or what an enclosing option that took over since was reset to; and any other
 slot, of words or of objects, holds what was sent for it last, over what the
 last option to take over reset it to.  All of it is stated against a history
 that is told from the wire alone and never looks at the storage.
 */
module Unions {
  import opened Wire
  import opened Message
  import opened Schema
  import opened Machine
  import opened Resets
  import Chunks
  import F = Floats
  import Utf8

  // ----- what one arrival brings ----------------------------------------------------

  /** The arrival slot's share of a value that is in hand. */
  function Arrival(row: Row, p: Pending): word
    requires Announced(p)
  {
    match p
    case Payload(st, len) => if IsObject(row.kind) && row.into then len else 1
    case VArray(_, count) => count
    case FArray(_, count) => count
    case _ => 1
  }

  /** What the bytes of a value say a slot is to hold; `done` says that all of them are there. */
  function Sent(row: Row, p: Pending, s: seq<byte>, a: nat, done: bool): Option<word>
    requires Announced(p) && WireTag(row.kind) == TagOf(p)
  {
    if done && row.countAt == a then Some(Arrival(row, p))
    else match p
      case Scalar(_) =>
        if !done || row.at != a || !ReadVarint(s).Got? then None
        else
          ReadVarintBounds(s);
          var raw := ReadVarint(s).value;
          Some(if row.kind.KBoolean? then Truth(raw) else Slot(if row.kind.KSigned? then ZigzagDecode(raw) else raw))
      case Payload(st, len) =>
        if done && row.at == a && st <= FP64 && |s| >= len then Some(F.Element(s[..len], len, 0)) else None
      case VArray(_, count) =>
        var e := ReadElems(s, count, row.kind.KArraySigned?, RowLo(row), RowHi(row));
        if !(row.at <= a < row.at + |e.values|) then None
        else
          var w := Machine.Slot(e.values[a - row.at]);
          Some(if done && row.kind.KArrayBoolean? then Truth(w) else w)
      case FArray(st, count) =>
        if done && row.at <= a < row.at + count && |s| >= F.Packed(Width(st), count) then
          Some(F.Elements(s[..F.Packed(Width(st), count)], Width(st), count)[a - row.at])
        else None
  }

  /** The same of an `objects` slot: a value the decoder built, or a payload over what the caller's buffer held. */
  function SentObject(row: Row, p: Pending, s: seq<byte>, b: nat, done: bool, o: Obj): Obj
    requires Announced(p)
  {
    if !done || !IsObject(row.kind) || row.at != b || !p.Payload? || |s| < p.len then o
    else if !row.into then Built(s[..p.len])
    else if o.Buffer? && p.len <= |o.bytes| then Buffer(s[..p.len] + o.bytes[p.len..])
    else o
  }

  lemma IntsSent(m: M, row: Row, s: seq<byte>, a: nat)
    requires SlotsOk(row, |m.words|, |m.objects|) && a < |m.words|
    requires row.kind.KArrayUnsigned? || row.kind.KArraySigned? || row.kind.KArrayBoolean?
    requires m.pending.VArray? && m.pending.count <= row.cap
    requires Announced(m.pending) && WireTag(row.kind) == TagOf(m.pending)
    ensures
      var o := TakeInts(m, row, s);
      |o.m.words| == |m.words| && o.m.words[a] == Or(Sent(row, m.pending, s, a, o.Next?), m.words[a])
  {
    hide ReadElems, ResetOk;
    ReadElemsBounds(s, m.pending.count, row.kind.KArraySigned?, RowLo(row), RowHi(row));
  }

  lemma FloatsSent(m: M, row: Row, s: seq<byte>, a: nat)
    requires SlotsOk(row, |m.words|, |m.objects|) && a < |m.words|
    requires row.kind.KArrayFloat32? || row.kind.KArrayFloat64?
    requires m.pending.FArray? && m.pending.count <= row.cap
    requires Announced(m.pending) && WireTag(row.kind) == TagOf(m.pending)
    ensures
      var o := TakeFloats(m, row, s);
      |o.m.words| == |m.words| && o.m.words[a] == Or(Sent(row, m.pending, s, a, o.Next?), m.words[a])
  {
    hide F.Elements, ResetOk;
  }

  /** Taking a value puts in each slot what was sent for it, and leaves every other slot alone. */
  lemma ReadySent(m: M, row: Row, s: seq<byte>, a: nat)
    requires SlotsOk(row, |m.words|, |m.objects|) && !row.kind.KSequence? && a < |m.words|
    requires PendingOk(m.pending) && Announced(Bare(m.pending)) && WireTag(row.kind) == TagOf(Bare(m.pending))
    requires IsArray(row.kind) ==> m.pending == Bare(m.pending) && Settle(m.pending, row.cap).Some?
    ensures
      var o := TakeReady(m, row, s);
      |o.m.words| == |m.words| && o.m.words[a] == Or(Sent(row, Bare(m.pending), s, a, o.Next?), m.words[a])
  {
    hide TakeInts, TakeFloats, ReadVarint, ReadElems, ResetOk, Utf8.Valid, F.Element, F.Elements;
    if row.kind.KArrayFloat32? || row.kind.KArrayFloat64? {
      FloatsSent(m, row, s, a);
    } else if IsArray(row.kind) {
      IntsSent(m, row, s, a);
    }
  }

  /** And in each object slot. */
  lemma ReadyStored(m: M, row: Row, s: seq<byte>, b: nat)
    requires SlotsOk(row, |m.words|, |m.objects|) && !row.kind.KSequence? && b < |m.objects|
    requires PendingOk(m.pending) && Announced(Bare(m.pending)) && WireTag(row.kind) == TagOf(Bare(m.pending))
    requires IsArray(row.kind) ==> m.pending == Bare(m.pending) && Settle(m.pending, row.cap).Some?
    ensures
      var o := TakeReady(m, row, s);
      |o.m.objects| == |m.objects| &&
      o.m.objects[b] == SentObject(row, Bare(m.pending), s, b, o.Next?, m.objects[b])
  {
    hide ReadVarint, ReadElems, ResetOk, Utf8.Valid, F.Element, F.Elements, Slots, Truths, Fill;
  }

  // ----- the history ------------------------------------------------------------------

  /** A slot of `words` and a slot of `objects`, any at all. */
  datatype Watch = Watch(slot: nat, place: nat)

  /** The option every which slot holds, and what the watched slots are to hold. */
  datatype History = History(held: map<nat, int>, word: int, obj: Obj)

  /** Does the row put values in the slot? */
  predicate Fills(row: Row, a: nat) {
    || row.countAt == a
    || (IsScalar(row.kind) && row.at == a)
    || (IsArray(row.kind) && row.at <= a < row.at + row.cap)
  }

  /** The row's which slot is one of those told of. */
  predicate Fair(row: Row, whiches: set<nat>) {
    row.which >= 0 ==> row.which in whiches
  }

  predicate AllFair(cfg: Config, whiches: set<nat>) {
    forall t, id | 0 <= t < |cfg.tables| && id in cfg.tables[t].rows :: Fair(cfg.tables[t].rows[id], whiches)
  }

  /** The row a step finds for the wire's id and tag: an option of that name, correctly typed, has arrived. */
  function Picked(cfg: Config, m: M, s: seq<byte>): Option<Row> {
    match m.phase
    case Take(_, row) => row
    case Skip(_) => None
    case Walk =>
      if m.pending != Nothing || s == [] then None
      else match ParseHead(cfg, s, Machine.Depth(m))
        case Head(wt, id, sub, _, _) => if wt == SEQUENCE_START then Lookup(cfg, m.table, id, wt, sub) else None
        case _ => None
  }

  /**
   An option arrives.  If its union held another, every slot its reset names
   starts over, the which slots of unions nested in it among them; and its id
   is what its own union holds now.
   */
  function Chosen(h: History, row: Row, k: Watch): (g: History)
    requires Fair(row, h.held.Keys) && row.id <= ID_MAX
    ensures g.held.Keys == h.held.Keys
  {
    if row.which < 0 then h
    else
      var over := h.held[row.which] != row.id;
      var held := if over then map w | w in h.held :: Started(row.reset, w, h.held[w]) else h.held;
      History(held[row.which := row.id],
              if row.which == k.slot then row.id else if over then Started(row.reset, k.slot, h.word) else h.word,
              if over then Restarted(row.reset, k.place, h.obj) else h.obj)
  }

  function Started(r: Reset, a: nat, w: int): int {
    var last: Option<word> := Last(r.words, a);
    if last.Some? then last.value else w
  }

  /** One step of the history: what arrives may take over, and what is sent goes over it. */
  function Tell(cfg: Config, m: M, s: seq<byte>, k: Watch, h: History): (g: History)
    requires Ok(cfg, m) && AllFair(cfg, h.held.Keys)
    ensures g.held.Keys == h.held.Keys
  {
    match Picked(cfg, m, s)
    case None => h
    case Some(row) =>
      PickedFair(cfg, m, s, h.held.Keys);
      var chosen := Chosen(h, row, k);
      if !m.phase.Take? then Counted(row, k, chosen)
      else
        match Settle(m.pending, row.Declared())
        case None => chosen
        case Some(p) => Filled(row, Bare(p), s, Step(cfg, m, s).Next?, k, chosen)
  }

  /** The occurrence of a sequence, where the row counts it. */
  function Counted(row: Row, k: Watch, h: History): (g: History)
    ensures g.held.Keys == h.held.Keys
  {
    h.(word := h.word + if row.countAt == k.slot then 1 else 0,
       held := map w | w in h.held :: h.held[w] + if row.countAt == w then 1 else 0)
  }

  /** What the bytes of a value put into the slots told of, which slots among them if it lies over one. */
  function Filled(row: Row, p: Pending, s: seq<byte>, done: bool, k: Watch, h: History): (g: History)
    requires Announced(p) && WireTag(row.kind) == TagOf(p)
    ensures g.held.Keys == h.held.Keys
  {
    History(map w | w in h.held :: Put(Sent(row, p, s, w, done), h.held[w]),
            Put(Sent(row, p, s, k.slot, done), h.word),
            SentObject(row, p, s, k.place, done, h.obj))
  }

  function Put(sent: Option<word>, was: int): int {
    if sent.Some? then sent.value else was
  }

  lemma PickedFair(cfg: Config, m: M, s: seq<byte>, whiches: set<nat>)
    requires Ok(cfg, m) && AllFair(cfg, whiches) && Picked(cfg, m, s).Some?
    ensures
      var row := Picked(cfg, m, s).value;
      Fair(row, whiches) && SlotsOk(row, |m.words|, |m.objects|) && (m.phase.Take? ==> Chunks.Takable(m, row))
  {
    hide ParseHead, Fair, ScopesOk, SlotsOk;
    if m.phase.Take? {
      assert RowIn(cfg.tables, m.table, m.phase.id, m.phase.row.value);
    } else {
      var h := ParseHead(cfg, s, Machine.Depth(m));
      var row := Lookup(cfg, m.table, h.id, h.wt, h.sub);
      assert RowOk(row.value, |cfg.tables|, |m.words|, |m.objects|);
    }
  }

  /** The history of a whole run. */
  function Told(cfg: Config, m: M, s: seq<byte>, k: Watch, h: History): (g: History)
    requires Ok(cfg, m) && AllFair(cfg, h.held.Keys)
    ensures g.held.Keys == h.held.Keys
    decreases Measure(m, s)
  {
    StepSound(cfg, m, s);
    match Step(cfg, m, s)
    case Next(n, used) => Told(cfg, n, s[used..], k, Tell(cfg, m, s, k, h))
    case _ => Tell(cfg, m, s, k, h)
  }

  /** The storage says what the history says. */
  predicate StorageAgrees(words: seq<word>, objects: seq<Obj>, k: Watch, h: History) {
    && (forall w | w in h.held :: w < |words| && words[w] == h.held[w])
    && (k.slot < |words| ==> words[k.slot] == h.word)
    && (k.place < |objects| ==> objects[k.place] == h.obj)
  }

  predicate Agrees(m: M, k: Watch, h: History) {
    StorageAgrees(m.words, m.objects, k, h)
  }

  predicate Declined(o: Out) {
    o.Stop? && o.why.Refused?
  }

  // ----- one step -----------------------------------------------------------------------

  /** Selecting an option, against the history. */
  lemma SelectAgrees(m: M, row: Row, k: Watch, h: History)
    requires SlotsOk(row, |m.words|, |m.objects|) && Fair(row, h.held.Keys) && Agrees(m, k, h) && Select(m, row).1
    ensures Agrees(Select(m, row).0, k, Chosen(h, row, k))
  {
    hide Select, Fills, Last, Restarted, ResetOk;
    var n := Select(m, row).0;
    if row.which < 0 {
      SelectNone(m, row);
    } else {
      var g := Chosen(h, row, k);
      assert h.held[row.which] == m.words[row.which];
      forall w | w in g.held
        ensures w < |n.words| && n.words[w] == g.held[w]
      {
        assert w in h.held;
        SelectedWord(m, row, w);
      }
      if k.slot < |m.words| {
        SelectedWord(m, row, k.slot);
        assert n.words[k.slot] == g.word;
      }
      if k.place < |m.objects| {
        SelectedObject(m, row, k.place);
        assert n.objects[k.place] == g.obj;
      }
    }
  }

  lemma SelectNone(m: M, row: Row)
    requires SlotsOk(row, |m.words|, |m.objects|) && row.which < 0
    ensures Select(m, row) == (m, true)
  {
  }

  lemma SentElsewhere(row: Row, p: Pending, s: seq<byte>, a: nat, done: bool)
    requires Announced(p) && WireTag(row.kind) == TagOf(p) && !Fills(row, a) && !row.kind.KSequence?
    requires IsArray(row.kind) ==> Settle(p, row.cap).Some?
    ensures Sent(row, p, s, a, done).None?
  {
    hide ReadElems, F.Element, F.Elements, ReadVarint;
    if p.VArray? {
      ReadElemsBounds(s, p.count, row.kind.KArraySigned?, RowLo(row), RowHi(row));
    }
  }

  /** Taking a value, once the option is selected and the bound settled. */
  lemma ReadyAgrees(m: M, row: Row, s: seq<byte>, k: Watch, h: History)
    requires Chunks.Ready(m, row) && Fair(row, h.held.Keys) && Agrees(m, k, h)
    ensures
      var o := TakeReady(m, row, s);
      Agrees(o.m, k, Filled(row, Bare(m.pending), s, o.Next?, k, h))
  {
    hide TakeReady, Sent, SentObject, SlotsOk, Fills;
    var o := TakeReady(m, row, s);
    forall w | w in h.held
      ensures o.m.words[w] == Put(Sent(row, Bare(m.pending), s, w, o.Next?), h.held[w])
    {
      ReadySent(m, row, s, w);
    }
    if k.slot < |m.words| {
      ReadySent(m, row, s, k.slot);
    }
    if k.place < |m.objects| {
      ReadyStored(m, row, s, k.place);
    }
  }

  lemma TakeAgrees(m: M, row: Row, s: seq<byte>, k: Watch, h: History)
    requires Chunks.Takable(m, row) && Fair(row, h.held.Keys) && Agrees(m, k, h)
    ensures
      var o := TakeMapped(m, row, s);
      var settled := Settle(m.pending, row.Declared());
      var chosen := Chosen(h, row, k);
      !Declined(o) ==>
        Agrees(o.m, k, if settled.None? then chosen else Filled(row, Bare(settled.value), s, o.Next?, k, chosen))
  {
    hide Select, TakeReady, Fair, Filled, Chosen, StorageAgrees;
    var (picked, fits) := Select(m, row);
    var settled := Settle(m.pending, row.Declared());
    assert row.id <= ID_MAX;
    hide SlotsOk;
    if fits {
      SelectAgrees(m, row, k, h);
      if settled.Some? {
        ReadyAgrees(picked.(pending := settled.value), row, s, k, Chosen(h, row, k));
      }
    }
  }

  lemma EnterAgrees(m: M, row: Row, k: Watch, h: History)
    requires SlotsOk(row, |m.words|, |m.objects|) && Fair(row, h.held.Keys) && Agrees(m, k, h)
    ensures
      var t := EnterRow(m, row);
      var chosen := Chosen(h, row, k);
      t.Go? ==> Agrees(t.m, k, Counted(row, k, chosen))
  {
    hide Select, Chosen, ResetOk;
    if Select(m, row).1 {
      SelectAgrees(m, row, k, h);
    }
  }

  lemma DispatchQuiet(cfg: Config, m: M, wt: nat, id: nat, sub: int)
    requires Ok(cfg, m) && m.phase == Walk && wt < 8 && id <= ID_MAX
    requires wt == SEQUENCE_END ==> m.scopes != []
    requires wt < SEQUENCE_START ==> Announced(Bare(m.pending))
    ensures
      var t := Dispatch(cfg, m, wt, id, sub);
      var row := if wt == SEQUENCE_START then Lookup(cfg, m.table, id, wt, sub) else None;
      && (row.None? ==> t.m.words == m.words && t.m.objects == m.objects)
      && (row.Some? ==> SlotsOk(row.value, |m.words|, |m.objects|) && t == EnterRow(m, row.value))
  {
    hide EnterRow, Settle, HandlerBound, ScopesOk, SlotsOk, Mistyped, Closed;
    var row := Lookup(cfg, m.table, id, wt, sub);
    if row.Some? {
      assert RowOk(row.value, |cfg.tables|, |m.words|, |m.objects|);
    }
  }

  lemma EnterDies(m: M, row: Row)
    requires SlotsOk(row, |m.words|, |m.objects|)
    ensures EnterRow(m, row).Die? ==> EnterRow(m, row).why.Refused?
  {
    hide Select;
  }

  lemma VisitKeepsStorage(cfg: Config, m: M, id: nat, s: seq<byte>)
    requires m.visitor.Some? && Announced(Bare(m.pending))
    ensures Visit(cfg, m, id, s).m.words == m.words && Visit(cfg, m, id, s).m.objects == m.objects
  {
    hide ReadVarint, ReadElems, Utf8.Valid;
  }

  /** Outside a value, only a header between fields can write. */
  lemma HeadOrSkip(cfg: Config, m: M, s: seq<byte>)
    requires Ok(cfg, m) && !m.phase.Take?
    ensures
      var o := Step(cfg, m, s);
      m.pending != Nothing || s == [] || m.phase.Skip? || !ParseHead(cfg, s, Machine.Depth(m)).Head? ==>
        o.m.words == m.words && o.m.objects == m.objects
  {
    hide ParseHead, Dispatch, DropVarints, ReadVarint;
  }

  /** One step keeps storage and history together. */
  lemma StepAgrees(cfg: Config, m: M, s: seq<byte>, k: Watch, h: History)
    requires Ok(cfg, m) && AllFair(cfg, h.held.Keys) && Agrees(m, k, h)
    ensures !Declined(Step(cfg, m, s)) ==> Agrees(Step(cfg, m, s).m, k, Tell(cfg, m, s, k, h))
  {
    hide AllFair, Fair, Filled, Chosen, TakeMapped, Visit, ParseHead, Dispatch, SkipPending, ScopesOk, TablesOk;
    hide EnterRow, StorageAgrees, SlotsOk;
    match m.phase
    case Take(id, row) =>
      if row.Some? {
        PickedFair(cfg, m, s, h.held.Keys);
        TakeAgrees(m, row.value, s, k, h);
      } else {
        VisitKeepsStorage(cfg, m, id, s);
      }
    case Skip(_) =>
      HeadOrSkip(cfg, m, s);
    case Walk =>
      HeadOrSkip(cfg, m, s);
      if m.pending == Nothing && s != [] && ParseHead(cfg, s, Machine.Depth(m)).Head? {
        HeadAgrees(cfg, m, s, k, h);
      }
  }

  lemma HeadAgrees(cfg: Config, m: M, s: seq<byte>, k: Watch, h: History)
    requires Ok(cfg, m) && AllFair(cfg, h.held.Keys) && Agrees(m, k, h)
    requires m.phase.Walk? && m.pending == Nothing && s != [] && ParseHead(cfg, s, Machine.Depth(m)).Head?
    ensures !Declined(Step(cfg, m, s)) ==> Agrees(Step(cfg, m, s).m, k, Tell(cfg, m, s, k, h))
  {
    hide AllFair, Fair, Chosen, ParseHead, Dispatch, ScopesOk, TablesOk, EnterRow, StorageAgrees, SlotsOk;
    ParseHeadBounds(cfg, s, Machine.Depth(m));
    var p := ParseHead(cfg, s, Machine.Depth(m));
    var q := m.(pending := p.pending);
    DispatchQuiet(cfg, q, p.wt, p.id, p.sub);
    if Picked(cfg, m, s).Some? {
      PickedFair(cfg, m, s, h.held.Keys);
      EnterAgrees(q, Picked(cfg, m, s).value, k, h);
      EnterDies(q, Picked(cfg, m, s).value);
    }
  }

  // ----- runs and feeds -----------------------------------------------------------------

  /**
   Union selection over runs.  Unless storage of the caller's was refused, the
   which slots end as the history says, and so does any slot of `words` and any
   slot of `objects`, whoever shares it.
   */
  lemma {:induction false} RunAgrees(cfg: Config, m: M, s: seq<byte>, k: Watch, h: History)
    requires Ok(cfg, m) && AllFair(cfg, h.held.Keys) && Agrees(m, k, h)
    ensures !Declined(Run(cfg, m, s)) ==> Agrees(Run(cfg, m, s).m, k, Told(cfg, m, s, k, h))
    decreases Measure(m, s)
  {
    hide Step, Ok, AllFair, Agrees, Tell;
    StepAgrees(cfg, m, s, k, h);
    Unfold(cfg, m, s);
    StepSound(cfg, m, s);
    match Step(cfg, m, s)
    case Next(n, used) => RunAgrees(cfg, n, s[used..], k, Tell(cfg, m, s, k, h));
    case _ =>
  }

  /** What the history starts from: the storage as the caller prepared it. */
  function Prepared(words: seq<word>, objects: seq<Obj>, whiches: set<nat>, k: Watch): (h: History)
    requires forall w | w in whiches :: w < |words|
    ensures h.held.Keys == whiches
  {
    History(map w | w in whiches :: words[w],
            if k.slot < |words| then words[k.slot] else 0,
            if k.place < |objects| then objects[k.place] else Absent)
  }

  /** The history of any feeds. */
  function ToldFeeds(cfg: Config, d: Chunks.Decode, chunks: seq<seq<byte>>, k: Watch, h: History): (g: History)
    requires Chunks.DecodeOk(cfg, d) && AllFair(cfg, h.held.Keys)
    ensures g.held.Keys == h.held.Keys
    decreases |chunks|
  {
    if chunks == [] || d.Dead? then h
    else
      ToldFeeds(cfg, Chunks.Feed(cfg, d, chunks[0]), chunks[1..], k, Told(cfg, d.m, d.held + chunks[0], k, h))
  }

  predicate DecodeAgrees(d: Chunks.Decode, k: Watch, h: History) {
    match d
    case Live(m, _) => Agrees(m, k, h)
    case Dead(left, why) => why.Refused? || StorageAgrees(left.words, left.objects, k, h)
  }

  /** The same over any feeds, on any tables. */
  lemma {:induction false} FeedsAgree(
    cfg: Config, d: Chunks.Decode, chunks: seq<seq<byte>>, k: Watch, h: History)
    requires Chunks.DecodeOk(cfg, d) && AllFair(cfg, h.held.Keys) && DecodeAgrees(d, k, h)
    ensures DecodeAgrees(Chunks.FeedAll(cfg, d, chunks), k, ToldFeeds(cfg, d, chunks, k, h))
    decreases |chunks|
  {
    hide Step, Ok, AllFair, Told, Run, StorageAgrees;
    if chunks != [] {
      if d.Live? {
        RunAgrees(cfg, d.m, d.held + chunks[0], k, h);
        FeedsAgree(cfg, Chunks.Feed(cfg, d, chunks[0]), chunks[1..], k, Told(cfg, d.m, d.held + chunks[0], k, h));
      } else {
        FeedsAgree(cfg, d, chunks[1..], k, h);
      }
    }
  }

  /**
   From the start of a decode, over any feeds; and where no array option lies
   over its own which slot the history is that of all the bytes in one feed:
   suspended values and chunk boundaries leave no trace in a union.
   */
  lemma UnionOverFeeds(
    cfg: Config, words: seq<word>, objects: seq<Obj>, chunks: seq<seq<byte>>, whiches: set<nat>, k: Watch)
    requires Ok(cfg, Start(cfg, words, objects)) && AllFair(cfg, whiches) && chunks != []
    requires forall w | w in whiches :: w < |words|
    ensures
      var m, h := Start(cfg, words, objects), Prepared(words, objects, whiches, k);
      var d := Chunks.FeedAll(cfg, Chunks.Live(m, []), chunks);
      && DecodeAgrees(d, k, ToldFeeds(cfg, Chunks.Live(m, []), chunks, k, h))
      && (Chunks.Unlaid(cfg) ==> DecodeAgrees(d, k, Told(cfg, m, Chunks.Flatten(chunks), k, h)))
  {
    hide Step, Ok, AllFair, Told, Run, Chunks.Unlaid, StorageAgrees;
    var m, h := Start(cfg, words, objects), Prepared(words, objects, whiches, k);
    StartAgrees(cfg, words, objects, whiches, k);
    FeedsAgree(cfg, Chunks.Live(m, []), chunks, k, h);
    if Chunks.Unlaid(cfg) {
      Chunks.ChunkingInvisible(cfg, Chunks.Live(m, []), chunks);
      assert [] + Chunks.Flatten(chunks) == Chunks.Flatten(chunks);
      RunAgrees(cfg, m, Chunks.Flatten(chunks), k, h);
    }
  }

  lemma StartAgrees(cfg: Config, words: seq<word>, objects: seq<Obj>, whiches: set<nat>, k: Watch)
    requires forall w | w in whiches :: w < |words|
    ensures Agrees(Start(cfg, words, objects), k, Prepared(words, objects, whiches, k))
  {
  }

  // ----- the option that arrived last ---------------------------------------------------

  /** The id of the last correctly typed arrival of an option of one union. */
  function LastArrived(cfg: Config, m: M, s: seq<byte>, w: nat, was: int): int
    requires Ok(cfg, m)
    decreases Measure(m, s)
  {
    StepSound(cfg, m, s);
    var row := Picked(cfg, m, s);
    var now := if row.Some? && row.value.which == w && row.value.id <= ID_MAX then row.value.id else was;
    match Step(cfg, m, s)
    case Next(n, used) => LastArrived(cfg, n, s[used..], w, now)
    case _ => now
  }

  /** No option's reset names the slot, its union being nested in no other, and no value or count goes there. */
  predicate Outermost(cfg: Config, w: nat) {
    forall t, id | 0 <= t < |cfg.tables| && id in cfg.tables[t].rows ::
      Last(cfg.tables[t].rows[id].reset.words, w).None? && !Fills(cfg.tables[t].rows[id], w)
  }

  /** A union that no option resets holds the last of its options to arrive. */
  lemma {:induction false} LastOptionHeld(cfg: Config, m: M, s: seq<byte>, k: Watch, h: History, w: nat)
    requires Ok(cfg, m) && AllFair(cfg, h.held.Keys) && w in h.held && Outermost(cfg, w)
    ensures Told(cfg, m, s, k, h).held[w] == LastArrived(cfg, m, s, w, h.held[w])
    decreases Measure(m, s)
  {
    hide Step, Ok, AllFair, Tell, Outermost, Picked;
    StepSound(cfg, m, s);
    OneArrival(cfg, m, s, k, h, w);
    match Step(cfg, m, s)
    case Next(n, used) => LastOptionHeld(cfg, n, s[used..], k, Tell(cfg, m, s, k, h), w);
    case _ =>
  }

  lemma OneArrival(cfg: Config, m: M, s: seq<byte>, k: Watch, h: History, w: nat)
    requires Ok(cfg, m) && AllFair(cfg, h.held.Keys) && w in h.held && Outermost(cfg, w)
    ensures
      var row := Picked(cfg, m, s);
      Tell(cfg, m, s, k, h).held[w] ==
      if row.Some? && row.value.which == w && row.value.id <= ID_MAX then row.value.id else h.held[w]
  {
    hide Step, AllFair, Fair, Filled, Last, Restarted, ParseHead, ScopesOk, TablesOk, Fills, ResetOk;
    var row := Picked(cfg, m, s);
    if row.Some? {
      PickedFair(cfg, m, s, h.held.Keys);
      PickedIsRow(cfg, m, s);
      CountsElsewhere(row.value, k, Chosen(h, row.value, k), w);
      if m.phase.Take? {
        var settled := Settle(m.pending, row.value.Declared());
        if settled.Some? {
          FilledElsewhere(row.value, Bare(settled.value), s, Step(cfg, m, s).Next?, k, Chosen(h, row.value, k), w);
        }
      }
    }
  }

  lemma CountsElsewhere(row: Row, k: Watch, h: History, w: nat)
    requires w in h.held && !Fills(row, w)
    ensures Counted(row, k, h).held[w] == h.held[w]
  {
  }

  lemma FilledElsewhere(row: Row, p: Pending, s: seq<byte>, done: bool, k: Watch, h: History, w: nat)
    requires w in h.held && !Fills(row, w) && Announced(p) && WireTag(row.kind) == TagOf(p) && !row.kind.KSequence?
    requires IsArray(row.kind) ==> Settle(p, row.cap).Some?
    ensures Filled(row, p, s, done, k, h).held[w] == h.held[w]
  {
    hide Sent, SentObject, Fills;
    SentElsewhere(row, p, s, w, done);
  }

  lemma PickedIsRow(cfg: Config, m: M, s: seq<byte>)
    requires Ok(cfg, m) && Picked(cfg, m, s).Some?
    ensures exists t, id ::
      0 <= t < |cfg.tables| && id in cfg.tables[t].rows && cfg.tables[t].rows[id] == Picked(cfg, m, s).value
  {
    hide ParseHead, ScopesOk;
    if m.phase.Take? {
      assert RowIn(cfg.tables, m.table, m.phase.id, m.phase.row.value);
    }
  }
}

/**
 Unions inside options.  An option of an outer union that takes over starts the
 unions nested in it at their own default options, and every slot below it at
 the value its own table declares.
 */
module Nesting {
  import opened Wire
  import opened Schema
  import opened Resets
  import opened Bindings
  import opened Compiling
  import Unions

  /** The row a decoder has for one row of a frozen table. */
  function RowFor(order: seq<Binding>, b: Binding, i: nat): (row: Row)
    requires Tree(order) && b in order && i < |b.entries|
    reads Those(order)`entries, Those(order)`byId, Those(order)`wordsRequired, Those(order)`objectsRequired,
          Those(order)`frozen, Those(order)`prepared
  {
    RowsStand(order, b, i);
    RowAt(order, b.entries[i], b.prepared[i])
  }

  /** A payload at the front of the caller's buffer, the rest as it was, where the buffer holds it. */
  predicate AtFront(p: seq<byte>, was: Obj, now: Obj) {
    was.Buffer? && |p| <= |was.bytes| ==> now == Buffer(p + was.bytes[|p|..])
  }

  /** Of all that a reset puts into the item's slot, nothing differs from the item. */
  ghost predicate Undisputed(r: Reset, x: Item) {
    match x
    case Word(a, v) => forall y | y in r.words && y.0 == a :: y.1 == v
    case Value(b, o) => (forall y | y in r.objects && y.0 == b :: y.1 == o) && forall y | y in r.into :: y.0 != b
    case Copy(b, p) => (forall y | y in r.into && y.0 == b :: y.1 == p) && forall y | y in r.objects :: y.0 != b
  }

  /** Everything declared below the option for the item's slot says the same. */
  ghost predicate Alone(order: seq<Binding>, e: Entry, x: Item)
    reads Those(order)`entries
  {
    match x
    case Word(a, v) => forall w: word :: Starts(Those(order), e, Word(a, w)) ==> w == v
    case Value(b, o) =>
      && (forall other: Obj :: Starts(Those(order), e, Value(b, other)) ==> other == o)
      && (forall p: seq<byte> :: !Starts(Those(order), e, Copy(b, p)))
    case Copy(b, p) =>
      && (forall other: seq<byte> :: Starts(Those(order), e, Copy(b, other)) ==> other == p)
      && (forall o: Obj :: !Starts(Those(order), e, Value(b, o)))
  }

  /** The row a decoder has for an option starts its slots from exactly what is declared below it. */
  lemma ResetIsDeclared(order: seq<Binding>, b: Binding, i: nat)
    requires Tree(order) && b in order && i < |b.entries| && b.whichAt >= 0
    ensures RowFor(order, b, i).which == b.whichAt && RowFor(order, b, i).id == b.entries[i].id
    ensures forall x: Item :: In(x, RowFor(order, b, i).reset) <==> Starts(Those(order), b.entries[i], x)
  {
    RowsStand(order, b, i);
    assert b in Those(order);
    FrozenAsDeclared(Those(order), b, i);
    hide World, Frozen, Starts, In;
  }

  lemma AloneUndisputed(order: seq<Binding>, b: Binding, i: nat, x: Item)
    requires Tree(order) && b in order && i < |b.entries| && b.whichAt >= 0
    requires Alone(order, b.entries[i], x)
    ensures Undisputed(RowFor(order, b, i).reset, x)
  {
    ResetIsDeclared(order, b, i);
    hide Tree, RowFor, Starts;
    var r := RowFor(order, b, i).reset;
    match x
    case Word(a, v) =>
      forall y | y in r.words && y.0 == a
        ensures y.1 == v
      {
        assert In(Word(a, y.1), r);
      }
    case Value(a, o) =>
      forall y | y in r.objects && y.0 == a
        ensures y.1 == o
      {
        assert In(Value(a, y.1), r);
      }
      forall y | y in r.into
        ensures y.0 != a
      {
        assert In(Copy(y.0, y.1), r);
      }
    case Copy(a, p) =>
      forall y | y in r.into && y.0 == a
        ensures y.1 == p
      {
        assert In(Copy(a, y.1), r);
      }
      forall y | y in r.objects
        ensures y.0 != a
      {
        assert In(Value(y.0, y.1), r);
      }
  }

  /** An option of a union takes over from another. */
  ghost predicate TakesOver(order: seq<Binding>, b: Binding, i: nat, h: Unions.History)
    requires Tree(order) && b in order && i < |b.entries|
    reads Those(order)`entries, Those(order)`byId, Those(order)`wordsRequired, Those(order)`objectsRequired,
          Those(order)`frozen, Those(order)`prepared
  {
    var row := RowFor(order, b, i);
    && b.whichAt >= 0 && Unions.Fair(row, h.held.Keys) && row.id <= ID_MAX
    && b.whichAt in h.held && h.held[b.whichAt] != row.id
  }

  /**
   A slot below an option that takes over starts from the value declared for it
   there; a buffer of the caller's, from the declared payload at its front.
   Where a payload does not fit its buffer the decode is refused.
   */
  lemma SlotStarts(order: seq<Binding>, b: Binding, i: nat, x: Item, k: Unions.Watch, h: Unions.History)
    requires Tree(order) && b in order && i < |b.entries| && TakesOver(order, b, i, h)
    requires Starts(Those(order), b.entries[i], x) && Alone(order, b.entries[i], x)
    ensures
      var g := Unions.Chosen(h, RowFor(order, b, i), k);
      match x
      case Word(a, v) => a != b.whichAt ==> (a == k.slot ==> g.word == v) && (a in h.held ==> g.held[a] == v)
      case Value(a, o) => a == k.place ==> g.obj == o
      case Copy(a, p) => a == k.place ==> AtFront(p, h.obj, g.obj)
  {
    ResetIsDeclared(order, b, i);
    AloneUndisputed(order, b, i, x);
    hide Tree, Unions.Fair, Starts, Alone, RowFor;
    var row := RowFor(order, b, i);
    match x
    case Word(a, v) => LastIs(row.reset.words, a, v);
    case Value(a, o) =>
      LastIs(row.reset.objects, a, o);
      NotCopied(row.reset.into, a, o);
    case Copy(a, p) =>
      CopiedOnce(row.reset.into, a, p, h.obj);
  }

  /** Below the option some row, or some union's which slot, is declared to start so. */
  ghost predicate BelowStarts(order: seq<Binding>, e: Entry, x: Item)
    reads Those(order)`entries
  {
    e.child != null && exists p: seq<nat> :: Inherits(Those(order), e.child, p, x)
  }

  lemma TablesStart(order: seq<Binding>, b: Binding, i: nat, x: Item)
    requires Tree(order) && b in order && i < |b.entries| && b.whichAt >= 0
    ensures b.entries[i].Ok() && (b.entries[i].child != null ==> b.entries[i].child in Those(order))
    ensures In(x, TablesReset(Those(order), Order(Those(order), b.entries[i]))) <==> BelowStarts(order, b.entries[i], x)
    ensures RowFor(order, b, i).reset ==
      Both(OwnReset(b.entries[i]), TablesReset(Those(order), Order(Those(order), b.entries[i])))
  {
    var all, e := Those(order), b.entries[i];
    assert b in all;
    InWorld(all, b);
    RowsStand(order, b, i);
    assert Right(all, b, e, b.prepared[i]);
    hide Below, Inherits, Walk, TablesReset, OwnReset, Both, InTable, Frozen;
    InTables(all, Order(all, e), x);
    SomeIsBelow(all, e, Order(all, e), x);
    if SomewhereBelow(all, e, x) {
      var p: seq<nat> :| Below(all, e.child, p, x);
      var q := BelowInherits(all, e.child, p, x);
    }
    if BelowStarts(order, e, x) {
      var q: seq<nat> :| Inherits(all, e.child, q, x);
      var p := InheritsBelow(all, e.child, q, x);
    }
  }

  /** Where the option's own row and one below it declare a slot, the one below has the last word. */
  lemma BelowWins(order: seq<Binding>, b: Binding, i: nat, a: nat, w: word)
    requires Tree(order) && b in order && i < |b.entries| && b.whichAt >= 0
    requires BelowStarts(order, b.entries[i], Word(a, w))
    ensures
      var left: Option<word> := Last(RowFor(order, b, i).reset.words, a);
      left.Some? && BelowStarts(order, b.entries[i], Word(a, left.value))
  {
    TablesStart(order, b, i, Word(a, w));
    var e := b.entries[i];
    var below := TablesReset(Those(order), Order(Those(order), e)).words;
    LastOver(OwnReset(e).words, below, a);
    assert (a, w) in below;
    LastIsOne(below, a);
    TablesStart(order, b, i, Word(a, Last(below, a).value));
    hide Tree, RowFor, OwnReset, TablesReset, BelowStarts;
  }

  /** Rows that start over with their tables, one below the other, lead from one table to another. */
  ghost predicate Passes(order: seq<Binding>, a: Binding, p: seq<nat>, c: Binding)
    reads Those(order)`entries
    decreases |p|
  {
    a in Those(order) &&
    if p == [] then a == c
    else StartsOver(a, p[0]) && a.entries[p[0]].child != null && Passes(order, a.entries[p[0]].child, p[1..], c)
  }

  /** What such a table holds is declared below where the way began. */
  lemma {:induction false} PassesOn(order: seq<Binding>, a: Binding, p: seq<nat>, c: Binding, q: seq<nat>, x: Item)
    requires Passes(order, a, p, c) && Inherits(Those(order), c, q, x)
    ensures Inherits(Those(order), a, p + q, x)
    decreases |p|
  {
    hide Declares, IsWhich;
    if p == [] {
      assert [] + q == q;
    } else {
      PassesOn(order, a.entries[p[0]].child, p[1..], c, q, x);
      assert (p + q)[1..] == p[1..] + q && (p + q)[0] == p[0];
    }
  }

  /**
   A switch of the outer union: the union nested anywhere below the option that
   takes over, on a way that starts over with it, holds its own default option.
   */
  lemma OuterSwitch(order: seq<Binding>, b: Binding, i: nat, p: seq<nat>, inner: Binding,
      k: Unions.Watch, h: Unions.History)
    requires Tree(order) && b in order && i < |b.entries| && TakesOver(order, b, i, h)
    requires b.entries[i].child != null && Passes(order, b.entries[i].child, p, inner)
    requires inner.whichAt >= 0 && inner.whichAt != b.whichAt && inner.defaultId <= ID_MAX && inner.whichAt in h.held
    requires Alone(order, b.entries[i], Word(inner.whichAt, inner.defaultId))
    ensures
      var g := Unions.Chosen(h, RowFor(order, b, i), k);
      g.held[b.whichAt] == b.entries[i].id && g.held[inner.whichAt] == inner.defaultId
  {
    hide Tree, RowFor, Alone, Starts, Passes;
    var x := Word(inner.whichAt, inner.defaultId);
    PassesInside(order, b.entries[i].child, p, inner);
    PassesOn(order, b.entries[i].child, p, inner, [], x);
    StartsBelow(Those(order), b.entries[i], p + [], x);
    ResetIsDeclared(order, b, i);
    SlotStarts(order, b, i, x, k, h);
  }

  lemma {:induction false} PassesInside(order: seq<Binding>, a: Binding, p: seq<nat>, c: Binding)
    requires Passes(order, a, p, c)
    ensures c in Those(order)
    decreases |p|
  {
    if p != [] {
      PassesInside(order, a.entries[p[0]].child, p[1..], c);
    }
  }

  lemma OneRow(all: set<Binding>, c: Binding, j: nat, x: Item)
    requires c in all && StartsOver(c, j) && Declares(c.entries[j], x)
    ensures Inherits(all, c, [j], x)
  {
    hide Declares;
  }

  lemma StartsBelow(all: set<Binding>, e: Entry, p: seq<nat>, x: Item)
    requires e.child != null && Inherits(all, e.child, p, x)
    ensures Starts(all, e, x)
  {
    hide Inherits, Declares;
  }

  /** And every slot of what the nested table holds then, of a union its default option's, is at its own default. */
  lemma InnerSlots(order: seq<Binding>, b: Binding, i: nat, p: seq<nat>, inner: Binding, j: nat, x: Item,
      k: Unions.Watch, h: Unions.History)
    requires Tree(order) && b in order && i < |b.entries| && TakesOver(order, b, i, h)
    requires b.entries[i].child != null && Passes(order, b.entries[i].child, p, inner)
    requires StartsOver(inner, j) && Declares(inner.entries[j], x) && Alone(order, b.entries[i], x)
    ensures
      var g := Unions.Chosen(h, RowFor(order, b, i), k);
      match x
      case Word(a, v) => a != b.whichAt && a == k.slot ==> g.word == v
      case Value(a, o) => a == k.place ==> g.obj == o
      case Copy(a, p) => a == k.place ==> AtFront(p, h.obj, g.obj)
  {
    hide Tree, RowFor, Alone, Starts, Passes, Declares, TakesOver, Inherits, Unions.Chosen, AtFront;
    PassesInside(order, b.entries[i].child, p, inner);
    OneRow(Those(order), inner, j, x);
    PassesOn(order, b.entries[i].child, p, inner, [j], x);
    StartsBelow(Those(order), b.entries[i], p + [j], x);
    SlotStarts(order, b, i, x, k, h);
  }
}
