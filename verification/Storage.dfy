/**
 From table objects to the decoder's tables.  A frozen tree names no slot at or
 above the sizes it states.
 */
module Compiling {
  import opened Wire
  import opened Message
  import opened Schema
  import opened Bindings

  // ----- from table objects to the decoder's tables -------------------------------------

  /** Where a table stands among those reachable from the root: the number that stands for it. */
  function IndexOf(order: seq<Binding>, b: Binding): (i: nat)
    requires b in order
    ensures i < |order| && order[i] == b
  {
    if order[0] == b then 0 else IndexOf(order[1..], b) + 1
  }

  /** One row as the decoder reads it, with what freezing put beside it. */
  function RowAt(order: seq<Binding>, e: Entry, p: Prepared): Row
    requires e.child != null ==> e.child in order
  {
    Row(e.kind, e.id, e.at, e.cap, e.countAt, if e.child == null then 0 else IndexOf(order, e.child),
        e.lo, e.hi, e.bounded, e.into, p.which, p.reset)
  }

  /** The tables of a frozen tree, closed under their rows. */
  ghost predicate Tree(order: seq<Binding>)
    reads Those(order)`entries, Those(order)`byId, Those(order)`wordsRequired, Those(order)`objectsRequired,
          Those(order)`frozen, Those(order)`prepared
  {
    World(Those(order)) && forall b | b in order :: Frozen(Those(order), b)
  }

  lemma RowsStand(order: seq<Binding>, b: Binding, i: nat)
    requires Tree(order) && b in order && i < |b.entries|
    ensures |b.prepared| == |b.entries| && b.entries[i].id in b.byId
    ensures b.entries[i].child != null ==> b.entries[i].child in order
  {
    assert b in Those(order);
  }

  function Compiled(order: seq<Binding>, b: Binding): (t: Table)
    requires Tree(order) && b in order
    reads Those(order)`entries, Those(order)`byId, Those(order)`wordsRequired, Those(order)`objectsRequired,
          Those(order)`frozen, Those(order)`prepared
    ensures t.closed == b.closed && forall id | id in t.rows :: id in b.byId && b.byId[id] < |b.entries|
  {
    assert forall id | id in b.byId :: b.byId[id] < |b.entries| by { assert b in Those(order); }
    assert forall i | 0 <= i < |b.entries| ::
      |b.prepared| == |b.entries| && (b.entries[i].child != null ==> b.entries[i].child in order) by {
      forall i | 0 <= i < |b.entries|
        ensures |b.prepared| == |b.entries| && (b.entries[i].child != null ==> b.entries[i].child in order)
      {
        RowsStand(order, b, i);
      }
    }
    Table(map id | id in b.byId :: RowAt(order, b.entries[b.byId[id]], b.prepared[b.byId[id]]), b.closed)
  }

  function FirstTables(order: seq<Binding>, n: nat): (ts: seq<Table>)
    requires Tree(order) && n <= |order|
    reads Those(order)`entries, Those(order)`byId, Those(order)`wordsRequired, Those(order)`objectsRequired,
          Those(order)`frozen, Those(order)`prepared
    ensures |ts| == n && forall i | 0 <= i < n :: ts[i] == Compiled(order, order[i])
  {
    if n == 0 then [] else FirstTables(order, n - 1) + [Compiled(order, order[n - 1])]
  }

  /** The decoder's tables, each in the place its table object has in the walk. */
  function Tables(order: seq<Binding>): (ts: seq<Table>)
    requires Tree(order)
    reads Those(order)`entries, Those(order)`byId, Those(order)`wordsRequired, Those(order)`objectsRequired,
          Those(order)`frozen, Those(order)`prepared
    ensures |ts| == |order|
  {
    FirstTables(order, |order|)
  }

  /** The sizes cover every table of the tree. */
  ghost predicate Covers(order: seq<Binding>, nwords: nat, nobjects: nat)
    reads Those(order)`wordsRequired, Those(order)`objectsRequired
  {
    forall b | b in order :: b.wordsRequired <= nwords && b.objectsRequired <= nobjects
  }

  /** An item lies below the sizes given. */
  predicate Lies(x: Item, nwords: nat, nobjects: nat) {
    if x.Word? then x.slot < nwords else x.slot < nobjects
  }

  lemma OwnLies(e: Entry, x: Item)
    requires e.Ok() && In(x, OwnReset(e))
    ensures Lies(x, e.WordsNeeded(), e.ObjectsNeeded())
  {
  }

  lemma {:induction false} RowsLie(rows: seq<Entry>, x: Item, nwords: nat, nobjects: nat)
    requires forall r | r in rows :: r.Ok() && r.WordsNeeded() <= nwords && r.ObjectsNeeded() <= nobjects
    requires In(x, Reset(WordsOf(rows), ObjectsOf(rows), IntoOf(rows)))
    ensures Lies(x, nwords, nobjects)
    decreases |rows|
  {
    if rows != [] {
      var init, last := rows[..|rows| - 1], rows[|rows| - 1];
      assert last in rows;
      if In(x, OwnReset(last)) {
        OwnLies(last, x);
      } else {
        RowsLie(init, x, nwords, nobjects);
      }
    }
  }

  lemma TableLies(all: set<Binding>, b: Binding, x: Item)
    requires World(all) && b in all && InTable(all, b, x)
    ensures Lies(x, b.wordsRequired, b.objectsRequired)
  {
    var rows := b.HeldRows();
    assert forall r | r in rows :: r in b.entries;
    if In(x, Reset(WordsOf(rows), ObjectsOf(rows), IntoOf(rows))) {
      RowsLie(rows, x, b.wordsRequired, b.objectsRequired);
    }
  }

  /** What lies below a table belongs to a table. */
  lemma {:induction false} BelowIsIn(all: set<Binding>, a: Binding, p: seq<nat>, x: Item) returns (b: Binding)
    requires World(all) && Below(all, a, p, x)
    ensures b in all && InTable(all, b, x)
    decreases |p|
  {
    if p == [] {
      b := a;
    } else {
      b := BelowIsIn(all, Rows(a, true)[p[0]].child, p[1..], x);
    }
  }

  lemma ItemLies(order: seq<Binding>, b: Binding, e: Entry, r: Reset, x: Item, nwords: nat, nobjects: nat)
    requires World(Those(order)) && b in order && e in b.entries && e.Ok() && Holds(Those(order), e, r) && In(x, r)
    requires Covers(order, nwords, nobjects)
    ensures Lies(x, nwords, nobjects)
  {
    hide World, Below, InTable;
    var all := Those(order);
    if In(x, OwnReset(e)) {
      OwnLies(e, x);
      RowFits(all, b, e);
    } else {
      assert SomewhereBelow(all, e, x);
      var p: seq<nat> :| Below(all, e.child, p, x);
      var c := BelowIsIn(all, e.child, p, x);
      TableLies(all, c, x);
    }
  }

  lemma RowFits(all: set<Binding>, b: Binding, e: Entry)
    requires World(all) && b in all && e in b.entries
    ensures e.Ok() && e.WordsNeeded() <= b.wordsRequired && e.ObjectsNeeded() <= b.objectsRequired
    ensures b.whichAt < b.wordsRequired
  {
  }

  lemma ResetLies(order: seq<Binding>, b: Binding, e: Entry, r: Reset, nwords: nat, nobjects: nat)
    requires World(Those(order)) && b in order && e in b.entries && e.Ok() && Holds(Those(order), e, r)
    requires Covers(order, nwords, nobjects)
    ensures ResetOk(r, nwords, nobjects)
  {
    hide World, Holds;
    forall j | 0 <= j < |r.words|
      ensures r.words[j].0 < nwords
    {
      ItemLies(order, b, e, r, Word(r.words[j].0, r.words[j].1), nwords, nobjects);
    }
    forall j | 0 <= j < |r.objects|
      ensures r.objects[j].0 < nobjects
    {
      ItemLies(order, b, e, r, Value(r.objects[j].0, r.objects[j].1), nwords, nobjects);
    }
    forall j | 0 <= j < |r.into|
      ensures r.into[j].0 < nobjects
    {
      ItemLies(order, b, e, r, Copy(r.into[j].0, r.into[j].1), nwords, nobjects);
    }
  }

  /** A row of the tree and its reset name no slot at or above the sizes. */
  lemma RowAtOk(order: seq<Binding>, b: Binding, i: nat, nwords: nat, nobjects: nat)
    requires Tree(order) && b in order && i < |b.entries| && Covers(order, nwords, nobjects)
    ensures |b.prepared| == |b.entries| && (b.entries[i].child != null ==> b.entries[i].child in order)
    ensures RowOk(RowAt(order, b.entries[i], b.prepared[i]), |order|, nwords, nobjects)
  {
    hide Frozen, World, Holds, ResetOk;
    RowsStand(order, b, i);
    RightIs(order, b, i);
    var e, p := b.entries[i], b.prepared[i];
    RowFits(Those(order), b, e);
    if b.whichAt >= 0 {
      ResetLies(order, b, e, p.reset, nwords, nobjects);
    } else {
      NoResetOk(nwords, nobjects);
    }
  }

  lemma NoResetOk(nwords: nat, nobjects: nat)
    ensures ResetOk(NO_RESET, nwords, nobjects)
  {
  }

  /** What freezing put beside a row. */
  lemma RightIs(order: seq<Binding>, b: Binding, i: nat)
    requires Tree(order) && b in order && i < |b.entries|
    ensures b in Those(order) && b.entries[i] in b.entries && b.entries[i].Ok() && |b.prepared| == |b.entries|
    ensures
      if b.whichAt < 0 then b.prepared[i] == Prepared(-1, NO_RESET)
      else b.prepared[i].which == b.whichAt && Holds(Those(order), b.entries[i], b.prepared[i].reset)
  {
    RowsStand(order, b, i);
    assert b in Those(order);
    var e, p := b.entries[i], b.prepared[i];
    assert Right(Those(order), b, e, p);
    RowFits(Those(order), b, e);
    hide Means, Holds, Flattened, Frozen, World;
    if b.whichAt >= 0 {
      FlatIsRecursive(Those(order), e, Order(Those(order), e), p.reset);
    }
  }

  /**
   A tree built through the binder methods and frozen, over storage of the
   sizes it states: every slot a row or a reset names exists.
   */
  lemma TreeIsSafe(order: seq<Binding>, nwords: nat, nobjects: nat)
    requires Tree(order) && Covers(order, nwords, nobjects)
    ensures TablesOk(Tables(order), nwords, nobjects)
  {
    var ts := Tables(order);
    forall t, id | 0 <= t < |ts| && id in ts[t].rows
      ensures ts[t].rows[id].id == id && RowOk(ts[t].rows[id], |ts|, nwords, nobjects)
    {
      var b := order[t];
      assert b in order && b in Those(order);
      RowAtOk(order, b, b.byId[id], nwords, nobjects);
    }
  }

  /**
   Binds a tree to storage of the caller's: refused exactly where the storage
   is smaller than the largest table of the tree states, and otherwise naming
   no slot at or above those sizes.
   */
  method BindStorage(root: Binding, nwords: nat, nobjects: nat, ghost all: set<Binding>)
    returns (ok: bool, order: seq<Binding>, words: nat, objects: nat)
    requires World(all) && root in all
    modifies all`frozen, all`prepared
    ensures World(all)
    ensures forall b | b in all && Reaches(all, false, root, b) ::
      b.wordsRequired <= words && b.objectsRequired <= objects
    ensures exists b :: b in all && Reaches(all, false, root, b) && b.wordsRequired == words
    ensures exists b :: b in all && Reaches(all, false, root, b) && b.objectsRequired == objects
    ensures ok <==> words <= nwords && objects <= nobjects
    ensures ok ==> Tree(order) && order != [] && TablesOk(Tables(order), words, objects)
    ensures ok ==> forall b | b in all :: b in order <==> Reaches(all, false, root, b)
  {
    hide World, Reaches, Frozen, Tables, TablesOk;
    words, objects := TreeSizes(root, all);
    order := [];
    if nwords < words || nobjects < objects {
      return false, [], words, objects;
    }
    order := Freeze(root, all);
    assert Covers(order, words, objects);
    TreeIsSafe(order, words, objects);
    ok := true;
  }

  // ----- a frozen tree stays as it is -----------------------------------------------------

  /**
   Any later call of a binder method, on a table of the tree or on any other:
   the tree, its sizes and what was compiled from it stay as they are.
   */
  method AddLater(b: Binding, kind: Kind, id: int, at: int, cap: int, countAt: Option<int>, child: Binding?,
      lo: Option<int>, hi: Option<int>, into: bool, default: Default, ghost kept: seq<Binding>)
    returns (ok: bool)
    requires b.Valid() && (child != null <==> kind.KSequence?) && DefaultFits(kind, default) && Tree(kept)
    modifies b`entries, b`byId, b`wordsRequired, b`objectsRequired
    ensures Tree(kept) && Tables(kept) == old(Tables(kept))
    ensures forall c | c in kept ::
      c.wordsRequired == old(c.wordsRequired) && c.objectsRequired == old(c.objectsRequired)
    ensures b in kept ==> !ok
  {
    assert forall c | c in kept :: c.frozen by { InTree(kept); }
    hide World, Frozen, Tables, TablesOk, Binding.Valid, DefaultFits;
    ok := b.Add(kind, id, at, cap, countAt, child, lo, hi, into, default);
  }

  lemma InTree(order: seq<Binding>)
    requires Tree(order)
    ensures forall c | c in order :: c.frozen
  {
  }

  /** The same of a sequence row: a table of the tree takes none, and none is bound to one from outside. */
  method SequenceLater(b: Binding, id: int, child: Binding, countAt: Option<int>, ghost kept: seq<Binding>)
    returns (ok: bool)
    requires b.Valid() && Tree(kept)
    modifies b`entries, b`byId, b`wordsRequired, b`objectsRequired
    ensures Tree(kept) && Tables(kept) == old(Tables(kept))
    ensures b in kept || child in kept ==> !ok
  {
    assert forall c | c in kept :: c.frozen by { InTree(kept); }
    hide World, Frozen, Tables, TablesOk, Binding.Valid;
    ok := b.Sequence(id, child, countAt);
  }

  /** Freezing is idempotent: a tree that shares tables with one frozen before puts the same beside their rows. */
  method FreezeLater(root: Binding, ghost all: set<Binding>, ghost kept: seq<Binding>)
    returns (order: seq<Binding>)
    requires World(all) && root in all && Tree(kept)
    modifies all`frozen, all`prepared
    ensures Tree(order) && root in order
    ensures Tree(kept) && Tables(kept) == old(Tables(kept))
  {
    hide World, Reaches, Tables;
    order := Freeze(root, all);
    forall b | b in kept
      ensures b.frozen == old(b.frozen) && b.prepared == old(b.prepared)
    {
      if b in order {
        SamePrepared(kept, order, b, old(b.prepared));
      }
    }
  }

  lemma SamePrepared(kept: seq<Binding>, order: seq<Binding>, b: Binding, was: seq<Prepared>)
    requires World(Those(kept)) && World(Those(order)) && b in kept && b in order
    requires AllRight(Those(kept), b, was) && Frozen(Those(order), b)
    ensures b.prepared == was
  {
    forall i | 0 <= i < |b.entries|
      ensures b.prepared[i] == was[i]
    {
      assert b in Those(kept) && b in Those(order);
      if b.whichAt >= 0 {
        FlattenedAlike(Those(kept), Those(order), b.entries[i]);
      }
    }
  }
}

/**
 Storage safety.  Whatever bytes arrive, a decode over tables that stay below
 some sizes writes below those sizes and nowhere else.
 */
module Storage {
  import opened Wire
  import opened Message
  import opened Schema
  import opened Machine
  import opened Bindings
  import opened Compiling
  import Chunks
  import Decoding
  import F = Floats
  import Utf8

  // ----- what a decode writes -----------------------------------------------------------

  /** The machine's tables, and the row it is taking a value for, stay below the sizes. */
  predicate Bounded(cfg: Config, m: M, w: nat, o: nat) {
    && TablesOk(cfg.tables, w, o) && w <= |m.words| && o <= |m.objects|
    && (m.phase.Take? && m.phase.row.Some? ==> SlotsOk(m.phase.row.value, w, o))
  }

  /** Nothing at or above the sizes has changed. */
  predicate Untouched(m: M, n: M, w: nat, o: nat)
    requires w <= |m.words| == |n.words| && o <= |m.objects| == |n.objects|
  {
    n.words[w..] == m.words[w..] && n.objects[o..] == m.objects[o..]
  }

  lemma {:induction false} ResetWordsBelow(words: seq<word>, rs: seq<(nat, word)>, w: nat)
    requires w <= |words| && forall i | 0 <= i < |rs| :: rs[i].0 < w
    ensures ResetWords(words, rs)[w..] == words[w..]
    decreases |rs|
  {
    if rs != [] {
      ResetWordsBelow(words[rs[0].0 := rs[0].1], rs[1..], w);
    }
  }

  lemma {:induction false} ResetObjectsBelow(objects: seq<Obj>, rs: seq<(nat, Obj)>, o: nat)
    requires o <= |objects| && forall i | 0 <= i < |rs| :: rs[i].0 < o
    ensures ResetObjects(objects, rs)[o..] == objects[o..]
    decreases |rs|
  {
    if rs != [] {
      ResetObjectsBelow(objects[rs[0].0 := rs[0].1], rs[1..], o);
    }
  }

  lemma {:induction false} ResetIntoBelow(objects: seq<Obj>, rs: seq<(nat, seq<byte>)>, o: nat)
    requires o <= |objects| && forall i | 0 <= i < |rs| :: rs[i].0 < o
    ensures ResetInto(objects, rs).0[o..] == objects[o..]
    decreases |rs|
  {
    if rs != [] {
      var c := CopyInto(objects[rs[0].0], rs[0].1);
      if c.Some? {
        ResetIntoBelow(objects[rs[0].0 := c.value], rs[1..], o);
      }
    }
  }

  lemma SelectBelow(m: M, row: Row, w: nat, o: nat)
    requires SlotsOk(row, w, o) && w <= |m.words| && o <= |m.objects|
    ensures SlotsOk(row, |m.words|, |m.objects|) && Untouched(m, Select(m, row).0, w, o)
  {
    hide ResetWords, ResetObjects, ResetInto;
    ResetWordsBelow(m.words, row.reset.words, w);
    ResetObjectsBelow(m.objects, row.reset.objects, o);
    ResetIntoBelow(ResetObjects(m.objects, row.reset.objects), row.reset.into, o);
  }

  lemma FillBelow(words: seq<word>, at: nat, values: seq<word>, w: nat)
    requires at + |values| <= w <= |words|
    ensures Fill(words, at, values)[w..] == words[w..]
  {
  }

  lemma TakeIntsBelow(m: M, row: Row, s: seq<byte>, w: nat, o: nat)
    requires SlotsOk(row, w, o) && w <= |m.words| && o <= |m.objects|
    requires row.kind.KArrayUnsigned? || row.kind.KArraySigned? || row.kind.KArrayBoolean?
    requires m.pending.VArray? && m.pending.count <= row.cap && Announced(m.pending)
    ensures Untouched(m, TakeInts(m, row, s).m, w, o)
  {
    hide ReadElems, Fill, ResetOk, Slots, Truths;
    var e := ReadElems(s, m.pending.count, row.kind.KArraySigned?, RowLo(row), RowHi(row));
    ReadElemsBounds(s, m.pending.count, row.kind.KArraySigned?, RowLo(row), RowHi(row));
    FillBelow(m.words, row.at, Slots(e.values), w);
    FillBelow(m.words, row.at, Truths(Slots(e.values)), w);
  }

  lemma TakeFloatsBelow(m: M, row: Row, s: seq<byte>, w: nat, o: nat)
    requires SlotsOk(row, w, o) && w <= |m.words| && o <= |m.objects|
    requires row.kind.KArrayFloat32? || row.kind.KArrayFloat64?
    requires m.pending.FArray? && m.pending.count <= row.cap && Announced(m.pending)
    ensures Untouched(m, TakeFloats(m, row, s).m, w, o)
  {
    hide Fill, ResetOk, F.Elements;
    var width := if row.kind.KArrayFloat32? then 4 else 8;
    var len := F.Packed(width, m.pending.count);
    if |s| >= len {
      FillBelow(m.words, row.at, F.Elements(s[..len], width, m.pending.count), w);
    }
  }

  lemma TakeReadyBelow(m: M, row: Row, s: seq<byte>, w: nat, o: nat)
    requires SlotsOk(row, w, o) && w <= |m.words| && o <= |m.objects| && !row.kind.KSequence?
    requires PendingOk(m.pending) && Announced(Bare(m.pending)) && WireTag(row.kind) == TagOf(Bare(m.pending))
    requires IsArray(row.kind) ==> m.pending == Bare(m.pending) && Settle(m.pending, row.cap).Some?
    ensures Untouched(m, TakeReady(m, row, s).m, w, o)
  {
    hide TakeInts, TakeFloats, ReadVarint, ResetOk, Utf8.Valid, F.Element;
    if row.kind.KArrayFloat32? || row.kind.KArrayFloat64? {
      TakeFloatsBelow(m, row, s, w, o);
    } else if IsArray(row.kind) {
      TakeIntsBelow(m, row, s, w, o);
    }
  }

  lemma TakeMappedBelow(m: M, row: Row, s: seq<byte>, w: nat, o: nat)
    requires SlotsOk(row, w, o) && w <= |m.words| && o <= |m.objects| && !row.kind.KSequence?
    requires PendingOk(m.pending) && Announced(Bare(m.pending)) && WireTag(row.kind) == TagOf(Bare(m.pending))
    ensures SlotsOk(row, |m.words|, |m.objects|) && Untouched(m, TakeMapped(m, row, s).m, w, o)
  {
    hide Select, TakeReady, ResetOk;
    SelectBelow(m, row, w, o);
    var (picked, fits) := Select(m, row);
    if fits && Settle(m.pending, row.Declared()).Some? {
      TakeReadyBelow(picked.(pending := Settle(m.pending, row.Declared()).value), row, s, w, o);
    }
  }

  lemma VisitBelow(cfg: Config, m: M, id: nat, s: seq<byte>)
    requires m.visitor.Some? && Announced(Bare(m.pending))
    ensures Visit(cfg, m, id, s).m.words == m.words && Visit(cfg, m, id, s).m.objects == m.objects
  {
    hide ReadVarint, ReadElems, Utf8.Valid;
  }

  lemma DispatchBelow(cfg: Config, m: M, wt: nat, id: nat, sub: int, w: nat, o: nat)
    requires Ok(cfg, m) && m.phase == Walk && wt < 8 && id <= ID_MAX && Bounded(cfg, m, w, o)
    requires wt == SEQUENCE_END ==> m.scopes != []
    requires wt < SEQUENCE_START ==> Announced(Bare(m.pending))
    ensures
      var t := Dispatch(cfg, m, wt, id, sub);
      && |t.m.words| == |m.words| && |t.m.objects| == |m.objects| && Untouched(m, t.m, w, o)
      && (t.Go? ==> Bounded(cfg, t.m, w, o))
  {
    hide Select, Settle, HandlerBound, ScopesOk;
    var row := Lookup(cfg, m.table, id, wt, sub);
    if row.Some? {
      assert RowOk(row.value, |cfg.tables|, w, o);
      SelectBelow(m, row.value, w, o);
    }
  }

  /** No step writes at or above the sizes its tables stay below. */
  lemma StepBelow(cfg: Config, m: M, s: seq<byte>, w: nat, o: nat)
    requires Ok(cfg, m) && Bounded(cfg, m, w, o)
    ensures
      var n := Step(cfg, m, s);
      && |n.m.words| == |m.words| && |n.m.objects| == |m.objects| && Untouched(m, n.m, w, o)
      && (!n.Stop? ==> Bounded(cfg, n.m, w, o))
  {
    hide TakeMapped, Visit, ParseHead, Dispatch, ScopesOk, TablesOk, SkipPending;
    StepSound(cfg, m, s);
    if m.phase.Take? {
      if m.phase.row.Some? {
        TakeMappedBelow(m, m.phase.row.value, s, w, o);
        TakeKeepsPhase(cfg, m, s);
      } else {
        VisitBelow(cfg, m, m.phase.id, s);
        TakeKeepsPhase(cfg, m, s);
      }
    } else if m.pending != Nothing {
      SkipsBelow(cfg, m, s);
    } else if s != [] {
      ParseHeadBounds(cfg, s, Machine.Depth(m));
      var h := ParseHead(cfg, s, Machine.Depth(m));
      if h.Head? && m.phase.Walk? {
        DispatchBelow(cfg, m.(pending := h.pending), h.wt, h.id, h.sub, w, o);
      }
    }
  }

  lemma TakeKeepsPhase(cfg: Config, m: M, s: seq<byte>)
    requires Ok(cfg, m) && m.phase.Take?
    ensures
      var n := Step(cfg, m, s);
      !n.Stop? ==> n.m.phase == Walk || n.m.phase == m.phase
  {
    hide TakeMapped, Visit;
  }

  lemma SkipsBelow(cfg: Config, m: M, s: seq<byte>)
    requires Ok(cfg, m) && !m.phase.Take? && m.pending != Nothing
    ensures Step(cfg, m, s).m == m.(pending := Step(cfg, m, s).m.pending)
  {
  }

  /**
   Storage safety over whole runs: whatever bytes arrive, the slots at or above
   the sizes the tables state are left exactly as the caller prepared them.
   */
  lemma {:induction false} RunBelow(cfg: Config, m: M, s: seq<byte>, w: nat, o: nat)
    requires Ok(cfg, m) && Bounded(cfg, m, w, o)
    ensures
      var n := Run(cfg, m, s);
      Untouched(m, n.m, w, o) && (n.Wait? ==> Bounded(cfg, n.m, w, o))
    decreases Measure(m, s)
  {
    hide Step, Ok, Bounded;
    StepBelow(cfg, m, s, w, o);
    BoundedSizes(cfg, m, w, o);
    Unfold(cfg, m, s);
    StepSound(cfg, m, s);
    match Step(cfg, m, s)
    case Next(n, used) => RunBelow(cfg, n, s[used..], w, o);
    case _ =>
  }

  lemma BoundedSizes(cfg: Config, m: M, w: nat, o: nat)
    requires Bounded(cfg, m, w, o)
    ensures w <= |m.words| && o <= |m.objects|
  {
  }

  // ----- whole decodes ------------------------------------------------------------------

  /** Storage as the caller prepared it, at and above the sizes. */
  predicate Spared(words: seq<word>, objects: seq<Obj>, ws: seq<word>, os: seq<Obj>, w: nat, o: nat) {
    && w <= |words| == |ws| && o <= |objects| == |os|
    && ws[w..] == words[w..] && os[o..] == objects[o..]
  }

  predicate Spares(cfg: Config, words: seq<word>, objects: seq<Obj>, d: Chunks.Decode, w: nat, o: nat) {
    match d
    case Live(m, _) => Bounded(cfg, m, w, o) && Spared(words, objects, m.words, m.objects, w, o)
    case Dead(left, _) => Spared(words, objects, left.words, left.objects, w, o)
  }

  lemma FeedSpares(cfg: Config, words: seq<word>, objects: seq<Obj>, d: Chunks.Decode, chunk: seq<byte>, w: nat, o: nat)
    requires Chunks.DecodeOk(cfg, d) && Spares(cfg, words, objects, d, w, o)
    ensures Spares(cfg, words, objects, Chunks.Feed(cfg, d, chunk), w, o)
  {
    hide Run, Ok, TablesOk;
    if d.Live? {
      RunBelow(cfg, d.m, d.held + chunk, w, o);
    }
  }

  /** Over any feeds, however the decode ends, nothing at or above the sizes has changed. */
  lemma {:induction false} FeedsSpare(
    cfg: Config, words: seq<word>, objects: seq<Obj>, d: Chunks.Decode, chunks: seq<seq<byte>>, w: nat, o: nat)
    requires Chunks.DecodeOk(cfg, d) && Spares(cfg, words, objects, d, w, o)
    ensures Spares(cfg, words, objects, Chunks.FeedAll(cfg, d, chunks), w, o)
    decreases |chunks|
  {
    hide Chunks.Feed, Chunks.DecodeOk, Spares;
    if chunks != [] {
      FeedSpares(cfg, words, objects, d, chunks[0], w, o);
      FeedsSpare(cfg, words, objects, Chunks.Feed(cfg, d, chunks[0]), chunks[1..], w, o);
    }
  }

  /**
   From the binder methods to the slots.  A tree of tables built in any way is
   bound to storage of the caller's unless that is smaller than the tree
   states; and whatever is then fed, in whatever pieces, refused or not, every
   slot at or above the tree's sizes is as the caller prepared it.
   */
  method DecodeOver(root: Binding, receiver: Config, words: array<word>, objects: seq<Obj>, rbuf: array<byte>,
      chunks: seq<seq<byte>>, ghost all: set<Binding>)
    returns (bound: bool, nwords: nat, nobjects: nat, after: seq<Obj>)
    requires World(all) && root in all
    requires receiver.arrayCap <= ARRAY_MAX && receiver.textCap <= FIXLEN_MAX && receiver.blobCap <= FIXLEN_MAX
    modifies all`frozen, all`prepared, words, rbuf
    ensures forall b | b in all && Reaches(all, false, root, b) ::
      b.wordsRequired <= nwords && b.objectsRequired <= nobjects
    ensures exists b :: b in all && Reaches(all, false, root, b) && b.wordsRequired == nwords
    ensures exists b :: b in all && Reaches(all, false, root, b) && b.objectsRequired == nobjects
    ensures bound <==> nwords <= words.Length && nobjects <= |objects|
    ensures bound ==> Spared(old(words[..]), objects, words[..], after, nwords, nobjects)
    ensures !bound ==> words[..] == old(words[..]) && after == objects
  {
    hide World, Reaches, Tree, Tables, TablesOk;
    var order;
    bound, order, nwords, nobjects := BindStorage(root, words.Length, |objects|, all);
    if !bound {
      return bound, nwords, nobjects, objects;
    }
    var cfg := receiver.(tables := Tables(order), tabled := true);
    after := DecodeAll(cfg, words, objects, rbuf, chunks, nwords, nobjects);
  }

  lemma LooserTables(tables: seq<Table>, w: nat, o: nat, nwords: nat, nobjects: nat)
    requires TablesOk(tables, w, o) && w <= nwords && o <= nobjects
    ensures TablesOk(tables, nwords, nobjects)
  {
    forall t, id | 0 <= t < |tables| && id in tables[t].rows
      ensures RowOk(tables[t].rows[id], |tables|, nwords, nobjects)
    {
      assert RowOk(tables[t].rows[id], |tables|, w, o);
    }
  }

  lemma StartSpares(cfg: Config, words: seq<word>, objects: seq<Obj>, w: nat, o: nat)
    requires TablesOk(cfg.tables, w, o) && w <= |words| && o <= |objects|
    ensures Spares(cfg, words, objects, Chunks.Live(Start(cfg, words, objects), []), w, o)
  {
    hide TablesOk;
  }

  /** A decoder over the storage, fed as long as it takes chunks; one that finds no room is skipped over. */
  method DecodeAll(cfg: Config, words: array<word>, objects: seq<Obj>, rbuf: array<byte>, chunks: seq<seq<byte>>,
      ghost w: nat, ghost o: nat)
    returns (after: seq<Obj>)
    requires TablesOk(cfg.tables, w, o) && w <= words.Length && o <= |objects| && (cfg.tabled ==> cfg.tables != [])
    requires cfg.arrayCap <= ARRAY_MAX && cfg.textCap <= FIXLEN_MAX && cfg.blobCap <= FIXLEN_MAX
    modifies words, rbuf
    ensures Spared(old(words[..]), objects, words[..], after, w, o)
  {
    hide TablesOk, Chunks.Feed, Chunks.DecodeOk, Start, Spares;
    ghost var was := words[..];
    LooserTables(cfg.tables, w, o, words.Length, |objects|);
    StartSpares(cfg, was, objects, w, o);
    var dec := new Decoding.Decoder(cfg, words, objects, rbuf);
    for i := 0 to |chunks|
      invariant dec.cfg == cfg && dec.words == words && dec.rbuf == rbuf && fresh(dec)
      invariant dec.Ready() && Spares(cfg, was, objects, dec.D(), w, o)
    {
      var goesOn := FeedOn(dec, chunks[i], was, objects, w, o);
      if !goesOn {
        return dec.objects;
      }
    }
    SparedNow(dec, was, objects, w, o);
    return dec.objects;
  }

  /** The decoder's own storage, in any state between feeds. */
  lemma SparedNow(dec: Decoding.Decoder, words: seq<word>, objects: seq<Obj>, w: nat, o: nat)
    requires dec.rstart <= dec.rend <= dec.rbuf.Length && Spares(dec.cfg, words, objects, dec.D(), w, o)
    ensures Spared(words, objects, dec.words[..], dec.objects, w, o)
  {
    hide TablesOk;
  }

  /** One feed; false where the decoder can take no more. */
  method FeedOn(dec: Decoding.Decoder, chunk: seq<byte>, ghost words: seq<word>, ghost objects: seq<Obj>,
      ghost w: nat, ghost o: nat)
    returns (goesOn: bool)
    requires dec.Ready() && Spares(dec.cfg, words, objects, dec.D(), w, o)
    modifies dec, dec.words, dec.rbuf
    ensures Spared(words, objects, dec.words[..], dec.objects, w, o)
    ensures goesOn ==> dec.Ready() && Spares(dec.cfg, words, objects, dec.D(), w, o)
  {
    hide TablesOk, Chunks.Feed, Chunks.DecodeOk, Spares;
    ReadyDecodes(dec);
    FeedSpares(dec.cfg, words, objects, dec.D(), chunk, w, o);
    ghost var next := Chunks.Feed(dec.cfg, dec.D(), chunk);
    var r := dec.Feed(chunk);
    if r.TailLost? {
      LostSpared(dec, next, words, objects, w, o);
      return false;
    }
    SparedNow(dec, words, objects, w, o);
    return !(r.Fed? && r.status == Chunks.Ended(Refused));
  }

  lemma ReadyDecodes(dec: Decoding.Decoder)
    requires dec.Ready()
    ensures Chunks.DecodeOk(dec.cfg, dec.D())
  {
  }

  lemma LostSpared(dec: Decoding.Decoder, d: Chunks.Decode, words: seq<word>, objects: seq<Obj>, w: nat, o: nat)
    requires d.Live? && dec.Core(dec.Phase()) == d.m && Spares(dec.cfg, words, objects, d, w, o)
    ensures Spared(words, objects, dec.words[..], dec.objects, w, o)
  {
    hide TablesOk;
  }
}
