/**
 Destination tables: built row by row, frozen once, and compiled into the flat
 lists a re-selected union option is reset from.  Tables refer to each other
 and may form cycles.
 */
module Bindings {
  import opened Wire
  import opened Message
  import opened Schema

  /** A declared default, as the pattern, the bytes or the element patterns it is stored as. */
  datatype Default = NoDefault | Bits(bits: word) | Text(value: seq<byte>) | Items(values: seq<word>)

  predicate DefaultFits(kind: Kind, d: Default) {
    match d
    case NoDefault => true
    case Bits(_) => IsScalar(kind)
    case Text(value) => IsObject(kind) && |value| < TWO64
    case Items(_) => IsArray(kind)
  }

  function WordsFor(kind: Kind, at: nat, cap: nat, countAt: int): nat {
    Max(if countAt >= 0 then countAt + 1 else 0,
        if IsScalar(kind) then at + 1 else if IsArray(kind) then at + cap else 0)
  }

  function ObjectsFor(kind: Kind, at: nat): nat {
    if IsObject(kind) then at + 1 else 0
  }

  /** The widest value the kind's domain has. */
  function Top(kind: Kind): int {
    if kind.KSigned? || kind.KArraySigned? then TWO63 - 1 else TWO64 - 1
  }

  /** Are a row's numbers in range: its id, its slots, its capacity and its element width? */
  predicate Admitted(kind: Kind, id: int, at: int, cap: int, countAt: Option<int>, lo: Option<int>, hi: Option<int>) {
    && 0 <= id <= ID_MAX && at >= 0
    && 0 <= cap <= (if IsObject(kind) then FIXLEN_MAX else ARRAY_MAX)
    && (countAt.Some? ==> countAt.value >= 0)
    && (lo.Some? ==> -TWO63 <= lo.value < TWO63)
    && (hi.Some? ==> 0 <= hi.value < if kind.KSigned? || kind.KArraySigned? then TWO63 else TWO64)
  }

  /** An option of a union starts empty, and a default fits the declared bound. */
  predicate DefaultAllowed(kind: Kind, cap: int, d: Default, whichAt: int) {
    d.NoDefault? || IsScalar(kind) ||
    (&& whichAt < 0
     && (d.Text? && cap > 0 ==> |d.value| <= cap)
     && (d.Items? ==> |d.values| <= cap))
  }

  /** One row of a table under construction. */
  datatype Entry = Entry(
    kind: Kind,
    id: nat,
    at: nat,
    cap: nat,
    countAt: int,
    child: Binding?,
    lo: int,
    hi: int,
    bounded: bool,
    into: bool,
    default: Default)
  {
    /** The arrival a reset records: nothing, or the size of the declared default. */
    function Arrived(): word
      requires DefaultFits(kind, default) && (default.Items? ==> |default.values| <= ARRAY_MAX)
    {
      match default
      case Items(values) => |values|
      case Text(value) => if into then |value| else 0
      case _ => 0
    }

    predicate Ok() {
      DefaultFits(kind, default) && (default.Items? ==> |default.values| <= cap <= ARRAY_MAX)
      && (child != null <==> kind.KSequence?) && id <= ID_MAX
    }

    /** The row's own slots and what they start from. */
    function OwnWords(): seq<(nat, word)>
      requires Ok()
    {
      (if IsScalar(kind) then [(at, if default.Bits? then default.bits else 0)]
       else if default.Items? then
         seq<(nat, word)>(|default.values|, i requires 0 <= i < |default.values| => (at + i, default.values[i]))
       else [])
      + if countAt >= 0 then [(countAt as nat, Arrived())] else []
    }

    function OwnObjects(): seq<(nat, Obj)> {
      if IsObject(kind) && !into then [(at, Built(if default.Text? then default.value else []))] else []
    }

    function OwnInto(): seq<(nat, seq<byte>)> {
      if IsObject(kind) && into && default.Text? then [(at, default.value)] else []
    }

    /** How many words and objects the row needs. */
    function WordsNeeded(): nat {
      WordsFor(kind, at, cap, countAt)
    }

    function ObjectsNeeded(): nat {
      ObjectsFor(kind, at)
    }
  }

  /** The row of one call: an omitted count slot is none, an omitted side of the width is the domain's. */
  function RowOf(kind: Kind, id: nat, at: nat, cap: nat, countAt: Option<int>, child: Binding?,
      lo: Option<int>, hi: Option<int>, into: bool, default: Default): (e: Entry)
    ensures e.id == id
    ensures e.WordsNeeded() == WordsFor(kind, at, cap, if countAt.Some? then countAt.value else -1)
    ensures e.ObjectsNeeded() == ObjectsFor(kind, at)
  {
    Entry(kind, id, at, cap, if countAt.Some? then countAt.value else -1, child,
          if lo.Some? then lo.value else -TWO63, if hi.Some? then hi.value else Top(kind),
          lo.Some? || hi.Some?, into, default)
  }

  lemma RowIsOk(kind: Kind, id: nat, at: nat, cap: nat, countAt: Option<int>, child: Binding?,
      lo: Option<int>, hi: Option<int>, into: bool, default: Default, whichAt: int)
    requires (child != null <==> kind.KSequence?) && DefaultFits(kind, default)
    requires Admitted(kind, id, at, cap, countAt, lo, hi) && DefaultAllowed(kind, cap, default, whichAt)
    ensures RowOf(kind, id, at, cap, countAt, child, lo, hi, into, default).Ok()
  {
  }

  /** A row as freezing leaves it: the union's which slot, and what the option is reset from. */
  datatype Prepared = Prepared(which: int, reset: Reset)

  /** Every row's storage lies below the sizes the table states. */
  predicate RowsFit(rows: seq<Entry>, nwords: nat, nobjects: nat) {
    forall i | 0 <= i < |rows| :: rows[i].Ok() && rows[i].WordsNeeded() <= nwords && rows[i].ObjectsNeeded() <= nobjects
  }

  /** Ids are unique and the index finds every row by its id. */
  predicate Indexed(rows: seq<Entry>, byId: map<nat, nat>) {
    && (forall id | id in byId :: byId[id] < |rows| && rows[byId[id]].id == id)
    && (forall i | 0 <= i < |rows| :: rows[i].id in byId && byId[rows[i].id] == i)
  }

  lemma RowsGrow(rows: seq<Entry>, e: Entry, nwords: nat, nobjects: nat, moreWords: nat, moreObjects: nat)
    requires RowsFit(rows, nwords, nobjects) && e.Ok() && nwords <= moreWords && nobjects <= moreObjects
    requires e.WordsNeeded() <= moreWords && e.ObjectsNeeded() <= moreObjects
    ensures RowsFit(rows + [e], moreWords, moreObjects) && RowsFit(rows, moreWords, moreObjects)
  {
  }

  lemma IndexGrows(rows: seq<Entry>, e: Entry, byId: map<nat, nat>)
    requires Indexed(rows, byId) && e.id !in byId
    ensures Indexed(rows + [e], byId[e.id := |rows|])
  {
  }

  lemma RowsStayFit(rows: seq<Entry>, nwords: nat, nobjects: nat, moreWords: nat, moreObjects: nat)
    requires RowsFit(rows, nwords, nobjects) && nwords <= moreWords && nobjects <= moreObjects
    ensures RowsFit(rows, moreWords, moreObjects)
  {
  }

  class Binding {
    const closed: bool
    const whichAt: int
    const defaultId: nat
    var entries: seq<Entry>
    var byId: map<nat, nat>
    var wordsRequired: nat
    var objectsRequired: nat
    var frozen: bool
    var prepared: seq<Prepared>

    ghost predicate Valid()
      reads this`entries, this`byId, this`wordsRequired, this`objectsRequired
    {
      && RowsFit(entries, wordsRequired, objectsRequired) && Indexed(entries, byId)
      && whichAt < wordsRequired && defaultId <= ID_MAX
    }

    /** An empty table, of a union if it has a which slot. */
    constructor (closed: bool, whichAt: Option<nat>, defaultId: nat)
      requires defaultId <= ID_MAX
      ensures Valid() && entries == [] && !frozen
      ensures this.closed == closed && this.defaultId == defaultId
      ensures this.whichAt == if whichAt.Some? then whichAt.value else -1
    {
      this.closed, this.defaultId := closed, defaultId;
      this.whichAt := if whichAt.Some? then whichAt.value else -1;
      entries, byId, frozen, prepared := [], map[], false, [];
      wordsRequired := if whichAt.Some? then whichAt.value + 1 else 0;
      objectsRequired := 0;
    }

    /** The rows whose storage a reset of this table's contents covers: of a union, the default option's alone. */
    function HeldRows(): (rows: seq<Entry>)
      requires Indexed(entries, byId)
      reads this`entries, this`byId
      ensures forall r | r in rows :: r in entries
    {
      if whichAt < 0 then entries
      else if defaultId in byId then [entries[byId[defaultId]]]
      else []
    }

    /** Raises the sizes to what a row needs; they stay raised if the row is refused after all. */
    method Reserve(kind: Kind, at: nat, cap: nat, cnt: int)
      requires Valid()
      modifies this`wordsRequired, this`objectsRequired
      ensures Valid()
      ensures wordsRequired == Max(old(wordsRequired), WordsFor(kind, at, cap, cnt))
      ensures objectsRequired == Max(old(objectsRequired), ObjectsFor(kind, at))
      ensures old(wordsRequired) <= wordsRequired && WordsFor(kind, at, cap, cnt) <= wordsRequired
      ensures old(objectsRequired) <= objectsRequired && ObjectsFor(kind, at) <= objectsRequired
    {
      if cnt >= 0 {
        wordsRequired := Max(wordsRequired, cnt + 1);
      }
      if IsObject(kind) {
        objectsRequired := Max(objectsRequired, at + 1);
      } else if IsArray(kind) {
        wordsRequired := Max(wordsRequired, at + cap);
      } else if !kind.KSequence? {
        wordsRequired := Max(wordsRequired, at + 1);
      }
      RowsStayFit(entries, old(wordsRequired), old(objectsRequired), wordsRequired, objectsRequired);
    }

    /** Puts a row behind the others and into the index. */
    method Append(e: Entry)
      requires Valid() && e.Ok() && e.id !in byId
      requires e.WordsNeeded() <= wordsRequired && e.ObjectsNeeded() <= objectsRequired
      modifies this`entries, this`byId
      ensures Valid() && entries == old(entries) + [e]
    {
      hide RowsFit, Indexed;
      RowsGrow(entries, e, wordsRequired, objectsRequired, wordsRequired, objectsRequired);
      IndexGrows(entries, e, byId);
      byId := byId[e.id := |entries|];
      entries := entries + [e];
    }

    /**
     Adds a row.  A frozen table, an id already bound or anything out of range
     is refused, and the rows stay as they were.
     */
    method Add(kind: Kind, id: int, at: int, cap: int, countAt: Option<int>, child: Binding?,
        lo: Option<int>, hi: Option<int>, into: bool, default: Default)
      returns (ok: bool)
      requires Valid() && (child != null <==> kind.KSequence?) && DefaultFits(kind, default)
      modifies this`entries, this`byId, this`wordsRequired, this`objectsRequired
      ensures Valid()
      ensures ok <==>
        && !old(frozen) && id !in old(byId)
        && Admitted(kind, id, at, cap, countAt, lo, hi) && DefaultAllowed(kind, cap, default, whichAt)
      ensures ok ==>
        var e := RowOf(kind, id, at, cap, countAt, child, lo, hi, into, default);
        && entries == old(entries) + [e]
        && wordsRequired == Max(old(wordsRequired), e.WordsNeeded())
        && objectsRequired == Max(old(objectsRequired), e.ObjectsNeeded())
      ensures !ok ==> entries == old(entries) && byId == old(byId)
      ensures old(frozen) ==> wordsRequired == old(wordsRequired) && objectsRequired == old(objectsRequired)
      ensures wordsRequired >= old(wordsRequired) && objectsRequired >= old(objectsRequired)
    {
      hide RowsFit, Indexed, DefaultAllowed, DefaultFits, RowOf;
      if frozen || id < 0 || id > ID_MAX || id in byId || at < 0 {
        return false;
      }
      if cap < 0 || cap > (if IsObject(kind) then FIXLEN_MAX else ARRAY_MAX) || (countAt.Some? && countAt.value < 0) {
        return false;
      }
      ok := Place(kind, id, at, cap, countAt, child, lo, hi, into, default);
    }

    /** The sizes are raised before the element width and the default are looked at. */
    method Place(kind: Kind, id: nat, at: nat, cap: nat, countAt: Option<int>, child: Binding?,
        lo: Option<int>, hi: Option<int>, into: bool, default: Default)
      returns (ok: bool)
      requires Valid() && (child != null <==> kind.KSequence?) && DefaultFits(kind, default) && id !in byId
      requires Admitted(kind, id, at, cap, countAt, None, None)
      modifies this`entries, this`byId, this`wordsRequired, this`objectsRequired
      ensures Valid()
      ensures ok <==> Admitted(kind, id, at, cap, countAt, lo, hi) && DefaultAllowed(kind, cap, default, whichAt)
      ensures
        var e := RowOf(kind, id, at, cap, countAt, child, lo, hi, into, default);
        && entries == old(entries) + (if ok then [e] else [])
        && wordsRequired == Max(old(wordsRequired), e.WordsNeeded())
        && objectsRequired == Max(old(objectsRequired), e.ObjectsNeeded())
      ensures !ok ==> byId == old(byId)
    {
      hide RowsFit, Indexed, WordsFor, ObjectsFor, Entry.Ok, DefaultAllowed, DefaultFits, RowOf, Max;
      hide Entry.WordsNeeded, Entry.ObjectsNeeded;
      Reserve(kind, at, cap, if countAt.Some? then countAt.value else -1);
      var low := if lo.Some? then lo.value else -TWO63;
      var high := if hi.Some? then hi.value else Top(kind);
      ok := -TWO63 <= low < TWO63 && 0 <= high <= Top(kind) && DefaultAllowed(kind, cap, default, whichAt);
      assert ok <==> Admitted(kind, id, at, cap, countAt, lo, hi) && DefaultAllowed(kind, cap, default, whichAt);
      hide Admitted, Top;
      if ok {
        RowIsOk(kind, id, at, cap, countAt, child, lo, hi, into, default, whichAt);
        Append(RowOf(kind, id, at, cap, countAt, child, lo, hi, into, default));
      }
    }

    /**
     A nested sequence with a table of its own.  A table already in use by a
     decoder takes no more rows and, so that a frozen tree is not extended from
     above, is bound by no table that is still being built.
     */
    method Sequence(id: int, child: Binding, countAt: Option<int>) returns (ok: bool)
      requires Valid()
      modifies this`entries, this`byId, this`wordsRequired, this`objectsRequired
      ensures Valid()
      ensures ok <==>
        !old(frozen) && !child.frozen && 0 <= id <= ID_MAX && id !in old(byId) && (countAt.Some? ==> countAt.value >= 0)
      ensures ok ==>
        entries == old(entries) + [RowOf(KSequence, id, 0, 0, countAt, child, None, None, false, NoDefault)]
      ensures !ok ==> entries == old(entries) && byId == old(byId)
      ensures old(frozen) || child.frozen ==>
        !ok && wordsRequired == old(wordsRequired) && objectsRequired == old(objectsRequired)
    {
      if child.frozen && !frozen {
        return false;
      }
      ok := Add(KSequence, id, 0, 0, countAt, child, None, None, false, NoDefault);
    }
  }

  // ----- the graph of tables ------------------------------------------------------

  /** A set of well-formed tables that no row leads out of. */
  ghost predicate World(all: set<Binding>)
    reads all`entries, all`byId, all`wordsRequired, all`objectsRequired
  {
    && (forall b | b in all :: b.Valid())
    && forall b, i | b in all && 0 <= i < |b.entries| && b.entries[i].child != null :: b.entries[i].child in all
  }

  /** The rows of a table a walk follows: all of them, or those a reset covers. */
  ghost function Rows(b: Binding, held: bool): (rows: seq<Entry>)
    requires Indexed(b.entries, b.byId)
    reads b`entries, b`byId
    ensures forall r | r in rows :: r in b.entries
  {
    if held then b.HeldRows() else b.entries
  }

  /** A row of `a` leads to `c`. */
  ghost predicate Leads(all: set<Binding>, held: bool, a: Binding, c: Binding)
    reads all`entries, all`byId, all`wordsRequired, all`objectsRequired
    requires World(all)
  {
    a in all && c in all && exists i | 0 <= i < |Rows(a, held)| :: Rows(a, held)[i].child == c
  }

  /** The rows of `p`, one after the other, lead from `a` to `c`. */
  ghost predicate Way(all: set<Binding>, held: bool, a: Binding, p: seq<nat>, c: Binding)
    requires World(all)
    reads all`entries, all`byId, all`wordsRequired, all`objectsRequired
    decreases |p|
  {
    && a in all
    && if p == [] then a == c
       else
         && p[0] < |Rows(a, held)| && Rows(a, held)[p[0]].child != null
         && Way(all, held, Rows(a, held)[p[0]].child, p[1..], c)
  }

  /** `c` is met on some way down from `a`. */
  ghost predicate Reaches(all: set<Binding>, held: bool, a: Binding, c: Binding)
    requires World(all)
    reads all`entries, all`byId, all`wordsRequired, all`objectsRequired
  {
    exists p: seq<nat> :: Way(all, held, a, p, c)
  }

  lemma ReachesSelf(all: set<Binding>, held: bool, a: Binding)
    requires World(all) && a in all
    ensures Reaches(all, held, a, a)
  {
    assert Way(all, held, a, [], a);
  }

  lemma {:induction false} WayOn(all: set<Binding>, held: bool, a: Binding, p: seq<nat>, b: Binding, i: nat, c: Binding)
    requires World(all) && b in all && Way(all, held, a, p, b)
    requires i < |Rows(b, held)| && Rows(b, held)[i].child == c
    ensures c in all && Way(all, held, a, p + [i], c)
    decreases |p|
  {
    RowsLeadInside(all, held, b, i);
    if p == [] {
      assert [i][1..] == [] && [] + [i] == [i];
      assert Way(all, held, c, [], c);
    } else {
      WayOn(all, held, Rows(a, held)[p[0]].child, p[1..], b, i, c);
      assert (p + [i])[1..] == p[1..] + [i];
    }
  }

  lemma RowsLeadInside(all: set<Binding>, held: bool, b: Binding, i: nat)
    requires World(all) && b in all && i < |Rows(b, held)|
    ensures Rows(b, held)[i].child != null ==> Rows(b, held)[i].child in all
  {
    assert Rows(b, held)[i] in b.entries;
  }

  lemma ReachesOn(all: set<Binding>, held: bool, a: Binding, b: Binding, c: Binding)
    requires World(all) && Reaches(all, held, a, b) && Leads(all, held, b, c)
    ensures Reaches(all, held, a, c)
  {
    var p: seq<nat> :| Way(all, held, a, p, b);
    var i: nat :| i < |Rows(b, held)| && Rows(b, held)[i].child == c;
    WayOn(all, held, a, p, b, i, c);
  }

  /** A set that no row of the walk leads out of. */
  ghost predicate ClosedSet(all: set<Binding>, held: bool, s: set<Binding>)
    requires World(all)
    reads all`entries, all`byId, all`wordsRequired, all`objectsRequired
  {
    forall a, c | a in s && c in all :: Leads(all, held, a, c) ==> c in s
  }

  lemma {:induction false} WayStays(all: set<Binding>, held: bool, s: set<Binding>, a: Binding, p: seq<nat>, c: Binding)
    requires World(all) && ClosedSet(all, held, s) && a in s && Way(all, held, a, p, c)
    ensures c in s
    decreases |p|
  {
    if p != [] {
      RowsLeadInside(all, held, a, p[0]);
      var b := Rows(a, held)[p[0]].child;
      assert Leads(all, held, a, b);
      WayStays(all, held, s, b, p[1..], c);
    }
  }

  /** A set that holds the root, is closed and holds nothing else is what the root reaches. */
  lemma ExactlyReached(all: set<Binding>, held: bool, s: set<Binding>, root: Binding)
    requires World(all) && root in s && ClosedSet(all, held, s)
    requires forall b | b in s :: b in all && Reaches(all, held, root, b)
    ensures forall b | b in all :: b in s <==> Reaches(all, held, root, b)
  {
    forall b | b in all && Reaches(all, held, root, b)
      ensures b in s
    {
      var p: seq<nat> :| Way(all, held, root, p, b);
      WayStays(all, held, s, root, p, b);
    }
  }

  /** Each once. */
  ghost predicate Once(order: seq<Binding>) {
    forall i, j | 0 <= i < j < |order| :: order[i] != order[j]
  }

  lemma OnceFits(order: seq<Binding>, all: set<Binding>)
    requires Once(order) && forall b | b in order :: b in all
    ensures |order| <= |all|
  {
    if order != [] {
      var last, init := order[|order| - 1], order[..|order| - 1];
      assert last !in init;
      OnceFits(init, all - {last});
    }
  }

  // ----- walking it -------------------------------------------------------------------

  /** What a walk has found: each table once, every one of them reached from the root. */
  ghost predicate Found(all: set<Binding>, held: bool, root: Binding, order: seq<Binding>)
    requires World(all)
    reads all`entries, all`byId, all`wordsRequired, all`objectsRequired
  {
    Once(order) && root in order && forall b | b in order :: b in all && Reaches(all, held, root, b)
  }

  /** The children of the first `i` tables found are found too. */
  ghost predicate Covered(all: set<Binding>, held: bool, order: seq<Binding>, i: nat)
    requires World(all) && i <= |order|
    reads all`entries, all`byId, all`wordsRequired, all`objectsRequired
  {
    forall j, c | 0 <= j < i && c in all :: Leads(all, held, order[j], c) ==> c in order
  }

  /** The children of the first `k` rows of a table are found. */
  ghost predicate RowsCovered(rows: seq<Entry>, k: nat, found: seq<Binding>)
    requires k <= |rows|
  {
    forall i | 0 <= i < k && rows[i].child != null :: rows[i].child in found
  }

  lemma RowsCoveredMore(rows: seq<Entry>, k: nat, found: seq<Binding>, more: seq<Binding>)
    requires k < |rows| && RowsCovered(rows, k, found) && found <= more
    requires rows[k].child != null ==> rows[k].child in more
    ensures RowsCovered(rows, k + 1, more)
  {
  }

  lemma FoundMore(all: set<Binding>, held: bool, root: Binding, order: seq<Binding>, a: Binding, c: Binding)
    requires World(all) && Found(all, held, root, order) && a in order && Leads(all, held, a, c) && c !in order
    ensures Found(all, held, root, order + [c])
  {
    ReachesOn(all, held, root, a, c);
  }

  lemma CoveredMore(all: set<Binding>, held: bool, order: seq<Binding>, i: nat)
    requires World(all) && i < |order| && Covered(all, held, order, i)
    requires order[i] in all && RowsCovered(Rows(order[i], held), |Rows(order[i], held)|, order)
    ensures Covered(all, held, order, i + 1)
  {
  }

  lemma FoundAll(all: set<Binding>, held: bool, root: Binding, order: seq<Binding>)
    requires World(all) && Found(all, held, root, order) && Covered(all, held, order, |order|)
    ensures forall b | b in all :: b in order <==> Reaches(all, held, root, b)
  {
    var s := set b | b in order;
    ExactlyReached(all, held, s, root);
  }

  /** This table and every table below it, breadth-first, each once however the tables refer to each other. */
  method Reachable(root: Binding, ghost all: set<Binding>) returns (out: seq<Binding>)
    requires World(all) && root in all
    ensures Once(out) && (forall b | b in out :: b in all)
    ensures forall b | b in all :: b in out <==> Reaches(all, false, root, b)
  {
    hide World, Leads, Way, Reaches;
    out := [root];
    ReachesSelf(all, false, root);
    var i := 0;
    while i < |out|
      invariant i <= |out| && Found(all, false, root, out) && Covered(all, false, out, i)
      decreases |all| - i
    {
      OnceFits(out, all);
      out := TakeChildren(root, out, out[i], all);
      CoveredMore(all, false, out, i);
      i := i + 1;
    }
    FoundAll(all, false, root, out);
  }

  lemma NoRowsCovered(rows: seq<Entry>, found: seq<Binding>)
    ensures RowsCovered(rows, 0, found)
  {
  }

  /** The child of one row, unless it has been found. */
  method TakeChild(root: Binding, b: Binding, k: nat, found: seq<Binding>, ghost all: set<Binding>)
    returns (more: seq<Binding>)
    requires World(all) && Found(all, false, root, found) && b in found && k < |b.entries|
    ensures Found(all, false, root, more) && found <= more
    ensures b.entries[k].child != null ==> b.entries[k].child in more
  {
    InWorld(all, b);
    RowsLeadInside(all, false, b, k);
    hide World, Way, Reaches, Once;
    more := found;
    var child := b.entries[k].child;
    if child != null && child !in more {
      assert Rows(b, false)[k].child == child;
      FoundMore(all, false, root, more, b, child);
      more := more + [child];
    }
  }

  /** The children of one table that have not been seen yet, behind those found. */
  method TakeChildren(root: Binding, out: seq<Binding>, b: Binding, ghost all: set<Binding>)
    returns (more: seq<Binding>)
    requires World(all) && Found(all, false, root, out) && b in out
    ensures Found(all, false, root, more) && out <= more
    ensures RowsCovered(Rows(b, false), |Rows(b, false)|, more)
  {
    InWorld(all, b);
    hide World, Way, Reaches, Found, Leads, RowsCovered;
    more := out;
    NoRowsCovered(Rows(b, false), more);
    for k := 0 to |b.entries|
      invariant Found(all, false, root, more) && out <= more
      invariant RowsCovered(Rows(b, false), k, more)
    {
      ghost var found := more;
      more := TakeChild(root, b, k, more, all);
      RowsCoveredMore(Rows(b, false), k, found, more);
    }
  }

  // ----- what an option is reset from -----------------------------------------------

  /** Slots and values of some rows, one row after the other. */
  function WordsOf(rows: seq<Entry>): seq<(nat, word)>
    requires forall r | r in rows :: r.Ok()
  {
    if rows == [] then [] else WordsOf(rows[..|rows| - 1]) + rows[|rows| - 1].OwnWords()
  }

  function ObjectsOf(rows: seq<Entry>): seq<(nat, Obj)> {
    if rows == [] then [] else ObjectsOf(rows[..|rows| - 1]) + rows[|rows| - 1].OwnObjects()
  }

  function IntoOf(rows: seq<Entry>): seq<(nat, seq<byte>)> {
    if rows == [] then [] else IntoOf(rows[..|rows| - 1]) + rows[|rows| - 1].OwnInto()
  }

  /** What one table contributes: a struct all its rows, a union its which slot and its default option. */
  ghost function TableReset(b: Binding): Reset
    requires b.Valid()
    reads b`entries, b`byId, b`wordsRequired, b`objectsRequired
  {
    RowsOk(b);
    Reset((if b.whichAt >= 0 then [(b.whichAt as nat, b.defaultId as word)] else []) + WordsOf(b.HeldRows()),
          ObjectsOf(b.HeldRows()), IntoOf(b.HeldRows()))
  }

  lemma RowsOk(b: Binding)
    requires b.Valid()
    ensures forall r | r in b.HeldRows() :: r.Ok()
  {
  }

  function Both(a: Reset, b: Reset): Reset {
    Reset(a.words + b.words, a.objects + b.objects, a.into + b.into)
  }

  /** What tables contribute, one after the other. */
  ghost function TablesReset(all: set<Binding>, order: seq<Binding>): Reset
    requires World(all) && forall b | b in order :: b in all
    reads all`entries, all`byId, all`wordsRequired, all`objectsRequired
  {
    if order == [] then NO_RESET
    else Both(TablesReset(all, order[..|order| - 1]), TableReset(order[|order| - 1]))
  }

  /** A row's own slots, as prepared when it was bound. */
  function OwnReset(e: Entry): Reset
    requires e.Ok()
  {
    Reset(e.OwnWords(), e.OwnObjects(), e.OwnInto())
  }

  /**
   The recursive meaning of a reset: the option's own slots, and what each
   table below it contributes, no table twice.
   */
  ghost predicate Means(all: set<Binding>, e: Entry, order: seq<Binding>, r: Reset)
    requires World(all) && e.Ok()
    reads all`entries, all`byId, all`wordsRequired, all`objectsRequired
  {
    && Once(order) && (forall b | b in order :: b in all)
    && (forall b | b in all :: b in order <==> e.child != null && Reaches(all, true, e.child, b))
    && r == Both(OwnReset(e), TablesReset(all, order))
  }

  /** The tables right below some rows that have not been seen, in the order of the rows. */
  function Unseen(rows: seq<Entry>, seen: set<Binding>): (kids: seq<Binding>)
    ensures forall b | b in kids :: b !in seen && exists i | 0 <= i < |rows| :: rows[i].child == b
    decreases |rows|
  {
    if rows == [] then []
    else
      assert forall i | 0 < i < |rows| :: rows[i] == rows[1..][i - 1];
      var child := rows[0].child;
      if child != null && child !in seen then [child] + Unseen(rows[1..], seen + {child})
      else Unseen(rows[1..], seen)
  }

  function Those(bs: seq<Binding>): set<Binding> {
    set b | b in bs
  }

  /**
   The tables a reset covers, in the order the walk over a stack visits them:
   the one on top, and below it in turn those its held rows newly lead to.
   */
  ghost function Walk(all: set<Binding>, stack: seq<Binding>, seen: set<Binding>): (r: seq<Binding>)
    requires World(all) && forall b | b in stack :: b in all
    reads all`entries, all`byId, all`wordsRequired, all`objectsRequired
    ensures forall b | b in r :: b in all
    decreases |all - seen|, |stack|
  {
    if stack == [] then []
    else
      var table, rest := stack[|stack| - 1], stack[..|stack| - 1];
      InWorld(all, table);
      var kids := Unseen(table.HeldRows(), seen);
      UnseenInside(all, table, seen);
      [table] + Walk(all, rest + kids, seen + Those(kids))
  }

  lemma UnseenInside(all: set<Binding>, table: Binding, seen: set<Binding>)
    requires World(all) && table in all && Indexed(table.entries, table.byId)
    ensures
      var kids := Unseen(table.HeldRows(), seen);
      && (forall b | b in kids :: b in all)
      && (if kids == [] then seen + Those(kids) == seen else |all - (seen + Those(kids))| < |all - seen|)
  {
    var kids := Unseen(table.HeldRows(), seen);
    forall b | b in kids
      ensures b in all
    {
      var i :| 0 <= i < |table.HeldRows()| && table.HeldRows()[i].child == b;
      RowsLeadInside(all, true, table, i);
    }
    if kids != [] {
      assert kids[0] in kids && kids[0] in all - seen;
      Smaller(all - (seen + Those(kids)), all - seen, kids[0]);
    }
  }

  lemma Smaller(a: set<Binding>, b: set<Binding>, x: Binding)
    requires a <= b && x in b && x !in a
    ensures |a| < |b|
  {
    Fewer(a, b - {x});
  }

  lemma Fewer(a: set<Binding>, b: set<Binding>)
    requires a <= b
    ensures |a| <= |b|
  {
    if x :| x in a {
      Fewer(a - {x}, b - {x});
    }
  }

  /** The tables below an option, in the order its reset takes them. */
  ghost function Order(all: set<Binding>, e: Entry): (r: seq<Binding>)
    requires World(all) && (e.child != null ==> e.child in all)
    reads all`entries, all`byId, all`wordsRequired, all`objectsRequired
    ensures forall b | b in r :: b in all
  {
    if e.child == null then [] else Walk(all, [e.child], {e.child})
  }

  /** What an option is reset from: its own slots, then those of the tables below it, table by table. */
  ghost function Flattened(all: set<Binding>, e: Entry): Reset
    requires World(all) && e.Ok() && (e.child != null ==> e.child in all)
    reads all`entries, all`byId, all`wordsRequired, all`objectsRequired
  {
    Both(OwnReset(e), TablesReset(all, Order(all, e)))
  }

  /** The tables seen: those done, and those still to do; each reached from the root. */
  ghost predicate Seen(all: set<Binding>, root: Binding, order: seq<Binding>, stack: seq<Binding>, seen: set<Binding>)
    requires World(all)
    reads all`entries, all`byId, all`wordsRequired, all`objectsRequired
  {
    && Once(order) && Once(stack) && (forall b | b in stack :: b !in order)
    && (forall b | b in order :: b in seen) && (forall b | b in stack :: b in seen)
    && (forall b | b in seen :: b in order || b in stack)
    && root in seen && (forall b | b in seen :: b in all && Reaches(all, true, root, b))
  }

  /** What the first `n` tables done lead to has been seen. */
  ghost predicate CoveredBy(all: set<Binding>, order: seq<Binding>, n: nat, seen: set<Binding>)
    requires World(all) && n <= |order|
    reads all`entries, all`byId, all`wordsRequired, all`objectsRequired
  {
    forall j, c | 0 <= j < n && c in all :: Leads(all, true, order[j], c) ==> c in seen
  }

  ghost predicate RowsSeen(rows: seq<Entry>, k: nat, seen: set<Binding>)
    requires k <= |rows|
  {
    forall i | 0 <= i < k && rows[i].child != null :: rows[i].child in seen
  }

  lemma NoRowsSeen(rows: seq<Entry>, seen: set<Binding>)
    ensures RowsSeen(rows, 0, seen)
  {
  }

  lemma RowsSeenMore(rows: seq<Entry>, k: nat, seen: set<Binding>, next: set<Binding>)
    requires k < |rows| && RowsSeen(rows, k, seen) && seen <= next
    requires rows[k].child != null ==> rows[k].child in next
    ensures RowsSeen(rows, k + 1, next)
  {
  }

  lemma SeenPop(all: set<Binding>, root: Binding, order: seq<Binding>, stack: seq<Binding>, seen: set<Binding>)
    requires World(all) && Seen(all, root, order, stack, seen) && stack != []
    ensures
      var table, rest := stack[|stack| - 1], stack[..|stack| - 1];
      table in all && Seen(all, root, order + [table], rest, seen) && |order| < |all|
  {
    hide World, Reaches;
    var table, rest := stack[|stack| - 1], stack[..|stack| - 1];
    forall b | b in seen
      ensures b in order + [table] || b in rest
    {
      if b in stack {
        var j :| 0 <= j < |stack| && stack[j] == b;
        assert j < |rest| ==> rest[j] == b;
      }
    }
    assert table in stack;
    assert Once(order + [table]);
    OnceFits(order + [table], all);
  }

  lemma SeenPush(all: set<Binding>, root: Binding, order: seq<Binding>, stack: seq<Binding>, seen: set<Binding>,
      a: Binding, c: Binding)
    requires World(all) && Seen(all, root, order, stack, seen) && a in order && Leads(all, true, a, c) && c !in seen
    ensures Seen(all, root, order, stack + [c], seen + {c})
  {
    ReachesOn(all, true, root, a, c);
    hide World, Reaches;
  }

  lemma CoveredNow(all: set<Binding>, order: seq<Binding>, table: Binding, seen: set<Binding>)
    requires World(all) && table in all && order != [] && order[|order| - 1] == table
    requires CoveredBy(all, order, |order| - 1, seen)
    requires RowsSeen(Rows(table, true), |Rows(table, true)|, seen)
    ensures CoveredBy(all, order, |order|, seen)
  {
  }

  lemma SeenAll(all: set<Binding>, root: Binding, order: seq<Binding>, seen: set<Binding>)
    requires World(all) && Seen(all, root, order, [], seen) && CoveredBy(all, order, |order|, seen)
    ensures forall b | b in all :: b in order <==> Reaches(all, true, root, b)
  {
    forall a, c | a in seen && c in all && Leads(all, true, a, c)
      ensures c in seen
    {
      var j :| 0 <= j < |order| && order[j] == a;
    }
    ExactlyReached(all, true, seen, root);
  }

  lemma TablesResetOne(all: set<Binding>, order: seq<Binding>, table: Binding)
    requires World(all) && table in all && forall b | b in order :: b in all
    ensures TablesReset(all, order + [table]) == Both(TablesReset(all, order), TableReset(table))
  {
    assert (order + [table])[..|order|] == order;
  }

  lemma BothAssociates(a: Reset, b: Reset, c: Reset)
    ensures Both(Both(a, b), c) == Both(a, Both(b, c))
    ensures Both(a, NO_RESET) == a
  {
    assert a.words + b.words + c.words == a.words + (b.words + c.words);
    assert a.objects + b.objects + c.objects == a.objects + (b.objects + c.objects);
    assert a.into + b.into + c.into == a.into + (b.into + c.into);
    assert a.words + [] == a.words && a.objects + [] == a.objects && a.into + [] == a.into;
  }

  /** What the first rows of a table contribute. */
  ghost function RowsReset(b: Binding, k: nat): Reset
    requires b.Valid() && k <= |b.HeldRows()|
    reads b`entries, b`byId, b`wordsRequired, b`objectsRequired
  {
    RowsOk(b);
    var rows := b.HeldRows()[..k];
    Reset((if b.whichAt >= 0 then [(b.whichAt as nat, b.defaultId as word)] else []) + WordsOf(rows),
          ObjectsOf(rows), IntoOf(rows))
  }

  lemma RowsResetStep(b: Binding, k: nat)
    requires b.Valid() && k < |b.HeldRows()|
    ensures b.HeldRows()[k].Ok()
    ensures RowsReset(b, k + 1) == Both(RowsReset(b, k), OwnReset(b.HeldRows()[k]))
  {
    RowsOk(b);
    var rows := b.HeldRows();
    assert rows[..k + 1][..k] == rows[..k];
    var head := if b.whichAt >= 0 then [(b.whichAt as nat, b.defaultId as word)] else [];
    assert head + (WordsOf(rows[..k]) + rows[k].OwnWords()) == head + WordsOf(rows[..k]) + rows[k].OwnWords();
  }

  lemma RowsResetEnds(b: Binding)
    requires b.Valid()
    ensures RowsReset(b, |b.HeldRows()|) == TableReset(b)
    ensures RowsReset(b, 0) ==
            Reset(if b.whichAt >= 0 then [(b.whichAt as nat, b.defaultId as word)] else [], [], [])
  {
    assert b.HeldRows()[..|b.HeldRows()|] == b.HeldRows();
    assert b.HeldRows()[..0] == [];
  }

  lemma InWorld(all: set<Binding>, b: Binding)
    requires World(all) && b in all
    ensures b.Valid() && Rows(b, true) == b.HeldRows() && Rows(b, false) == b.entries
  {
  }

  /** The child of one row, unless it has been seen. */
  method PushChild(root: Binding, table: Binding, k: nat, stack: seq<Binding>, seen: set<Binding>,
      ghost order: seq<Binding>, ghost all: set<Binding>)
    returns (rest: seq<Binding>, next: set<Binding>)
    requires World(all) && table in all && table in order && Seen(all, root, order, stack, seen)
    requires table.Valid() && k < |table.HeldRows()|
    ensures Seen(all, root, order, rest, next) && seen <= next
    ensures
      var child := table.HeldRows()[k].child;
      && (child != null ==> child in next)
      && (rest, next) == if child != null && child !in seen then (stack + [child], seen + {child}) else (stack, seen)
  {
    InWorld(all, table);
    RowsLeadInside(all, true, table, k);
    hide World, Way, Reaches, Once, Seen;
    rest, next := stack, seen;
    var child := table.HeldRows()[k].child;
    if child != null && child !in seen {
      assert Rows(table, true)[k].child == child;
      SeenPush(all, root, order, rest, next, table, child);
      rest, next := rest + [child], next + {child};
    }
  }

  /** The rows of one table: what they contribute, and the tables below them that have not been seen. */
  method TakeRows(root: Binding, table: Binding, rows: seq<Entry>, stack: seq<Binding>, seen: set<Binding>,
      ghost order: seq<Binding>, ghost all: set<Binding>)
    returns (t: Reset, rest: seq<Binding>, next: set<Binding>)
    requires World(all) && table in all && table in order && table.Valid() && rows == table.HeldRows()
    requires Seen(all, root, order, stack, seen)
    ensures t == RowsReset(table, |rows|)
    ensures Seen(all, root, order, rest, next) && seen <= next && RowsSeen(rows, |rows|, next)
    ensures rest == stack + Unseen(rows, seen) && next == seen + Those(Unseen(rows, seen))
  {
    hide World, Seen, RowsReset, Binding.HeldRows, RowsSeen, OwnReset, Both, Indexed, RowsFit, TableReset;
    hide Unseen, Those;
    UnseenStarts(rows, stack, seen);
    RowsResetEnds(table);
    NoRowsSeen(rows, seen);
    rest, next := stack, seen;
    t := Reset(if table.whichAt >= 0 then [(table.whichAt as nat, table.defaultId as word)] else [], [], []);
    for k := 0 to |rows|
      invariant t == RowsReset(table, k)
      invariant Seen(all, root, order, rest, next) && seen <= next && RowsSeen(rows, k, next)
      invariant ToCome(rows, k, rest, next) == ToCome(rows, 0, stack, seen)
    {
      RowsResetStep(table, k);
      UnseenStep(rows, k, rest, next);
      t := Both(t, OwnReset(rows[k]));
      ghost var was := next;
      rest, next := PushChild(root, table, k, rest, next, order, all);
      RowsSeenMore(rows, k, was, next);
    }
    UnseenEnds(rows, rest, next);
  }

  /** The stack and the tables seen once the rows from the `k`th on have been gone through. */
  function ToCome(rows: seq<Entry>, k: nat, stack: seq<Binding>, seen: set<Binding>): (seq<Binding>, set<Binding>)
    requires k <= |rows|
  {
    var kids := Unseen(rows[k..], seen);
    (stack + kids, seen + Those(kids))
  }

  lemma UnseenStarts(rows: seq<Entry>, stack: seq<Binding>, seen: set<Binding>)
    ensures ToCome(rows, 0, stack, seen) == (stack + Unseen(rows, seen), seen + Those(Unseen(rows, seen)))
  {
    assert rows[0..] == rows;
  }

  lemma UnseenStep(rows: seq<Entry>, k: nat, stack: seq<Binding>, seen: set<Binding>)
    requires k < |rows|
    ensures
      var child := rows[k].child;
      ToCome(rows, k, stack, seen) ==
      if child != null && child !in seen then ToCome(rows, k + 1, stack + [child], seen + {child})
      else ToCome(rows, k + 1, stack, seen)
  {
    assert rows[k..][1..] == rows[k + 1..];
    var child := rows[k].child;
    if child != null && child !in seen {
      var kids := Unseen(rows[k + 1..], seen + {child});
      assert stack + ([child] + kids) == stack + [child] + kids;
      assert seen + Those([child] + kids) == seen + {child} + Those(kids);
    }
  }

  lemma UnseenEnds(rows: seq<Entry>, stack: seq<Binding>, seen: set<Binding>)
    ensures ToCome(rows, |rows|, stack, seen) == (stack, seen)
  {
    assert rows[|rows|..] == [] && stack + [] == stack && seen + Those([]) == seen;
  }

  /** One table of the walk, behind those in `order`. */
  method TableStep(root: Binding, table: Binding, stack: seq<Binding>, seen: set<Binding>,
      ghost order: seq<Binding>, ghost all: set<Binding>)
    returns (t: Reset, rest: seq<Binding>, next: set<Binding>)
    requires World(all) && table in all
    requires Seen(all, root, order + [table], stack, seen) && CoveredBy(all, order, |order|, seen)
    ensures table.Valid() && t == TableReset(table)
    ensures Seen(all, root, order + [table], rest, next) && CoveredBy(all, order + [table], |order| + 1, next)
    ensures
      var kids := Unseen(table.HeldRows(), seen);
      rest == stack + kids && next == seen + Those(kids)
  {
    InWorld(all, table);
    hide World, Seen, Unseen, Those, TableReset, RowsReset, Binding.HeldRows, CoveredBy, RowsSeen, Rows, Leads, Once;
    hide Indexed, RowsFit, Binding.Valid;
    RowsResetEnds(table);
    t, rest, next := TakeRows(root, table, table.HeldRows(), stack, seen, order + [table], all);
    CoveredGrown(all, order, table, seen);
    CoveredLater(all, order + [table], |order|, seen, next);
    CoveredNow(all, order + [table], table, next);
  }

  lemma CoveredLater(all: set<Binding>, order: seq<Binding>, n: nat, seen: set<Binding>, next: set<Binding>)
    requires World(all) && n <= |order| && CoveredBy(all, order, n, seen) && seen <= next
    ensures CoveredBy(all, order, n, next)
  {
  }

  /**
   Flattens what an option starts from.  Every table is visited at most once,
   so the walk ends on cyclic tables too.
   */
  method OptionReset(e: Entry, ghost all: set<Binding>) returns (r: Reset, ghost order: seq<Binding>)
    requires World(all) && e.Ok() && (e.child != null ==> e.child in all)
    ensures order == Order(all, e) && r == Flattened(all, e)
    ensures Means(all, e, order, r)
    ensures Holds(all, e, r) && AsDeclared(all, e, r)
  {
    hide World, Reaches, Holds, Walk, Both, TablesReset, FromSome, AsDeclared;
    r := OwnReset(e);
    order := [];
    BothAssociates(OwnReset(e), NO_RESET, NO_RESET);
    NoTables(all);
    if e.child != null {
      r, order := ChildReset(e.child, r, all);
    }
    FlatIsRecursive(all, e, order, r);
    HoldsDeclared(all, e, r);
  }

  /** The tables below an option, each contributing behind those before it. */
  method ChildReset(root: Binding, own: Reset, ghost all: set<Binding>) returns (r: Reset, ghost order: seq<Binding>)
    requires World(all) && root in all
    ensures order == Walk(all, [root], {root}) && (forall b | b in order :: b in all)
    ensures Once(order) && forall b | b in all :: b in order <==> Reaches(all, true, root, b)
    ensures r == Both(own, TablesReset(all, order))
  {
    hide World, Leads, Way, Reaches, TableReset, Seen, CoveredBy, Walk, Unseen, Those, Both, TablesReset;
    r, order := own, [];
    BothAssociates(own, NO_RESET, NO_RESET);
    NoTables(all);
    var stack, seen := [root], {root};
    SeenStart(all, root);
    assert [] + Walk(all, stack, seen) == Walk(all, stack, seen);
    while stack != []
      invariant Seen(all, root, order, stack, seen) && CoveredBy(all, order, |order|, seen)
      invariant forall b | b in order :: b in all
      invariant (forall b | b in stack :: b in all) && order + Walk(all, stack, seen) == Walk(all, [root], {root})
      invariant r == Both(own, TablesReset(all, order))
      decreases |all| - |order|
    {
      var table := stack[|stack| - 1];
      WalkStep(all, order, stack, seen);
      SeenPop(all, root, order, stack, seen);
      var t, rest, next := TableStep(root, table, stack[..|stack| - 1], seen, order, all);
      TablesResetOne(all, order, table);
      BothAssociates(own, TablesReset(all, order), t);
      r := Both(r, t);
      order, stack, seen := order + [table], rest, next;
    }
    WalkEnds(all, order, seen);
    SeenAll(all, root, order, seen);
    SeenOnce(all, root, order, stack, seen);
  }

  lemma WalkStep(all: set<Binding>, order: seq<Binding>, stack: seq<Binding>, seen: set<Binding>)
    requires World(all) && (forall b | b in stack :: b in all) && stack != []
    ensures
      var table, rest := stack[|stack| - 1], stack[..|stack| - 1];
      && table.Valid()
      && var kids := Unseen(table.HeldRows(), seen);
         && (forall b | b in rest + kids :: b in all)
         && order + Walk(all, stack, seen) == order + [table] + Walk(all, rest + kids, seen + Those(kids))
  {
    var table, rest := stack[|stack| - 1], stack[..|stack| - 1];
    InWorld(all, table);
    UnseenInside(all, table, seen);
    var kids := Unseen(table.HeldRows(), seen);
    assert order + ([table] + Walk(all, rest + kids, seen + Those(kids))) ==
           order + [table] + Walk(all, rest + kids, seen + Those(kids));
  }

  lemma NoTables(all: set<Binding>)
    requires World(all)
    ensures TablesReset(all, []) == NO_RESET
  {
  }

  lemma WalkEnds(all: set<Binding>, order: seq<Binding>, seen: set<Binding>)
    requires World(all)
    ensures order + Walk(all, [], seen) == order
  {
  }

  lemma SeenStart(all: set<Binding>, root: Binding)
    requires World(all) && root in all
    ensures Seen(all, root, [], [root], {root}) && CoveredBy(all, [], 0, {root})
  {
    ReachesSelf(all, true, root);
  }

  lemma SeenOnce(all: set<Binding>, root: Binding, order: seq<Binding>, stack: seq<Binding>, seen: set<Binding>)
    requires World(all) && Seen(all, root, order, stack, seen)
    ensures Once(order)
  {
  }

  lemma CoveredGrown(all: set<Binding>, order: seq<Binding>, table: Binding, seen: set<Binding>)
    requires World(all) && CoveredBy(all, order, |order|, seen)
    ensures CoveredBy(all, order + [table], |order|, seen)
  {
  }

  // ----- the recursive meaning, slot by slot ------------------------------------------

  /** One slot and what it starts from. */
  datatype Item = Word(slot: nat, w: word) | Value(slot: nat, obj: Obj) | Copy(slot: nat, bytes: seq<byte>)

  predicate In(x: Item, r: Reset) {
    match x
    case Word(slot, w) => (slot, w) in r.words
    case Value(slot, obj) => (slot, obj) in r.objects
    case Copy(slot, bytes) => (slot, bytes) in r.into
  }

  lemma InBoth(x: Item, a: Reset, b: Reset)
    ensures In(x, Both(a, b)) <==> In(x, a) || In(x, b)
  {
  }

  ghost predicate InTable(all: set<Binding>, b: Binding, x: Item)
    requires World(all) && b in all
    reads all`entries, all`byId, all`wordsRequired, all`objectsRequired
  {
    In(x, TableReset(b))
  }

  /** The item comes from the table the held rows of `p` lead down to from `a`. */
  ghost predicate Below(all: set<Binding>, a: Binding, p: seq<nat>, x: Item)
    requires World(all)
    reads all`entries, all`byId, all`wordsRequired, all`objectsRequired
    decreases |p|
  {
    && a in all
    && if p == [] then InTable(all, a, x)
       else
         && p[0] < |Rows(a, true)| && Rows(a, true)[p[0]].child != null
         && Below(all, Rows(a, true)[p[0]].child, p[1..], x)
  }

  /**
   The recursive meaning: an item is reset if it is the option's own, or that
   of any table below it.  A struct passes on to all its rows, a union to its
   default option alone.
   */
  ghost predicate Holds(all: set<Binding>, e: Entry, r: Reset)
    requires World(all) && e.Ok()
    reads all`entries, all`byId, all`wordsRequired, all`objectsRequired
  {
    forall x: Item :: In(x, r) <==> In(x, OwnReset(e)) || SomewhereBelow(all, e, x)
  }

  lemma {:induction false} WayItem(all: set<Binding>, a: Binding, p: seq<nat>, b: Binding, x: Item)
    requires World(all) && Way(all, true, a, p, b) && b in all && InTable(all, b, x)
    ensures Below(all, a, p, x)
    decreases |p|
  {
    if p != [] {
      WayItem(all, Rows(a, true)[p[0]].child, p[1..], b, x);
    }
  }

  lemma {:induction false} ItemWay(all: set<Binding>, a: Binding, p: seq<nat>, x: Item) returns (b: Binding)
    requires World(all) && Below(all, a, p, x)
    ensures b in all && Way(all, true, a, p, b) && InTable(all, b, x)
    decreases |p|
  {
    if p == [] {
      b := a;
    } else {
      b := ItemWay(all, Rows(a, true)[p[0]].child, p[1..], x);
    }
  }

  ghost predicate FromSome(all: set<Binding>, order: seq<Binding>, x: Item)
    requires World(all) && forall b | b in order :: b in all
    reads all`entries, all`byId, all`wordsRequired, all`objectsRequired
  {
    exists i | 0 <= i < |order| :: order[i] in all && InTable(all, order[i], x)
  }

  lemma SomeSplits(all: set<Binding>, init: seq<Binding>, last: Binding, x: Item)
    requires World(all) && last in all && forall b | b in init :: b in all
    ensures FromSome(all, init + [last], x) <==> FromSome(all, init, x) || InTable(all, last, x)
  {
    hide World, InTable;
    var order := init + [last];
    if i :| 0 <= i < |order| && order[i] in all && InTable(all, order[i], x) {
      assert i < |init| ==> init[i] == order[i];
    }
    if i :| 0 <= i < |init| && init[i] in all && InTable(all, init[i], x) {
      assert order[i] == init[i];
    }
    assert order[|init|] == last;
  }

  lemma {:induction false} InTables(all: set<Binding>, order: seq<Binding>, x: Item)
    requires World(all) && forall b | b in order :: b in all
    ensures In(x, TablesReset(all, order)) <==> FromSome(all, order, x)
    decreases |order|
  {
    hide Both, TableReset;
    if order != [] {
      var init, last := order[..|order| - 1], order[|order| - 1];
      InWorld(all, last);
      InTables(all, init, x);
      InBoth(x, TablesReset(all, init), TableReset(last));
      SomeSplits(all, init, last, x);
      assert order == init + [last];
    }
  }

  /** The flat lists hold exactly the items of the recursive meaning. */
  lemma FlatIsRecursive(all: set<Binding>, e: Entry, order: seq<Binding>, r: Reset)
    requires World(all) && e.Ok() && Means(all, e, order, r)
    ensures Holds(all, e, r)
  {
    forall x: Item
      ensures In(x, r) <==> In(x, OwnReset(e)) || SomewhereBelow(all, e, x)
    {
      InBoth(x, OwnReset(e), TablesReset(all, order));
      InTables(all, order, x);
      SomeIsBelow(all, e, order, x);
    }
  }

  ghost predicate SomewhereBelow(all: set<Binding>, e: Entry, x: Item)
    requires World(all)
    reads all`entries, all`byId, all`wordsRequired, all`objectsRequired
  {
    e.child != null && exists p: seq<nat> :: Below(all, e.child, p, x)
  }

  lemma SomeIsBelow(all: set<Binding>, e: Entry, order: seq<Binding>, x: Item)
    requires World(all) && forall b | b in order :: b in all
    requires forall b | b in all :: b in order <==> e.child != null && Reaches(all, true, e.child, b)
    ensures FromSome(all, order, x) <==> SomewhereBelow(all, e, x)
  {
    hide World, Way, Below, InTable;
    if FromSome(all, order, x) {
      var i :| 0 <= i < |order| && order[i] in all && InTable(all, order[i], x);
      assert order[i] in order;
      var p: seq<nat> :| Way(all, true, e.child, p, order[i]);
      WayItem(all, e.child, p, order[i], x);
      assert SomewhereBelow(all, e, x);
    }
    if SomewhereBelow(all, e, x) {
      var p: seq<nat> :| Below(all, e.child, p, x);
      var b := ItemWay(all, e.child, p, x);
      assert Reaches(all, true, e.child, b);
      assert b in order;
      var i :| 0 <= i < |order| && order[i] == b;
      assert InTable(all, order[i], x);
    }
  }

  // ----- what is declared ----------------------------------------------------------------

  /** The arrival a row starts from: its default's elements, the bytes put in the caller's buffer, or none. */
  function Initially(e: Entry): nat {
    match e.default
    case Items(values) => |values|
    case Text(value) => if e.into then |value| else 0
    case _ => 0
  }

  /**
   A slot of the row, at what the row declares for it: a scalar at its default
   or 0, an array's elements at those of its default, a string or a blob at its
   default or empty, the caller's buffer at a default payload if there is one.
   */
  predicate Declares(e: Entry, x: Item) {
    match x
    case Word(slot, w) =>
      || (e.kind in {KUnsigned, KSigned, KBoolean, KFloat32, KFloat64} && slot == e.at &&
          w == match e.default { case Bits(bits) => bits case _ => 0 })
      || (e.default.Items? && e.at <= slot < e.at + |e.default.values| && w == e.default.values[slot - e.at])
      || (e.countAt == slot && w == Initially(e))
    case Value(slot, obj) =>
      && e.kind in {KString, KBytes} && !e.into && slot == e.at
      && obj == Built(match e.default { case Text(value) => value case _ => [] })
    case Copy(slot, bytes) =>
      e.kind in {KString, KBytes} && e.into && slot == e.at && e.default == Text(bytes)
  }

  /** A row whose slots start over with its table's: any row, but of a union the default option alone. */
  predicate StartsOver(b: Binding, i: nat)
    reads b`entries
  {
    i < |b.entries| && (b.whichAt >= 0 ==> b.entries[i].id == b.defaultId)
  }

  /** A union's which slot, at its default option. */
  predicate IsWhich(b: Binding, x: Item) {
    b.whichAt >= 0 && x.Word? && x.slot == b.whichAt && x.w == b.defaultId
  }

  /** The rows `p`, one below the other from `b`, lead to a slot that is declared to start so. */
  ghost predicate Inherits(all: set<Binding>, b: Binding, p: seq<nat>, x: Item)
    reads all`entries
    decreases |p|
  {
    b in all &&
    if p == [] then IsWhich(b, x)
    else
      && StartsOver(b, p[0])
      && var e := b.entries[p[0]];
         (|p| == 1 && Declares(e, x)) || (e.child != null && Inherits(all, e.child, p[1..], x))
  }

  /** What an option starts from. */
  ghost predicate Starts(all: set<Binding>, e: Entry, x: Item)
    reads all`entries
  {
    Declares(e, x) || (e.child != null && exists p: seq<nat> :: Inherits(all, e.child, p, x))
  }

  /** The lists put exactly what is declared into the slots. */
  ghost predicate AsDeclared(all: set<Binding>, e: Entry, r: Reset)
    reads all`entries
  {
    forall x: Item :: In(x, r) <==> Starts(all, e, x)
  }

  lemma OwnIsDeclared(e: Entry, x: Item)
    requires e.Ok()
    ensures In(x, OwnReset(e)) <==> Declares(e, x)
  {
    match x
    case Word(slot, w) =>
      if e.default.Items? {
        var own := seq<(nat, word)>(|e.default.values|,
          i requires 0 <= i < |e.default.values| => (e.at + i, e.default.values[i]));
        if e.at <= slot < e.at + |e.default.values| {
          assert own[slot - e.at] in own;
        }
      }
    case _ =>
  }

  ghost predicate AnyDeclares(rows: seq<Entry>, x: Item) {
    exists j | 0 <= j < |rows| :: Declares(rows[j], x)
  }

  lemma AnyMore(init: seq<Entry>, last: Entry, x: Item)
    ensures AnyDeclares(init + [last], x) <==> AnyDeclares(init, x) || Declares(last, x)
  {
    hide Declares;
    var rows := init + [last];
    assert rows[|init|] == last && forall j | 0 <= j < |init| :: rows[j] == init[j];
  }

  lemma {:induction false} RowsItems(rows: seq<Entry>, x: Item)
    requires forall r | r in rows :: r.Ok()
    ensures In(x, Reset(WordsOf(rows), ObjectsOf(rows), IntoOf(rows))) <==> AnyDeclares(rows, x)
    decreases |rows|
  {
    hide Entry.OwnWords, Entry.OwnObjects, Entry.OwnInto, Entry.Ok, AnyDeclares, Declares;
    if rows == [] {
      assert !AnyDeclares(rows, x) by { NoneDeclares(x); }
    } else {
      var init, last := rows[..|rows| - 1], rows[|rows| - 1];
      RowsItems(init, x);
      OwnIsDeclared(last, x);
      AnyMore(init, last, x);
      assert rows == init + [last];
    }
  }

  lemma NoneDeclares(x: Item)
    ensures !AnyDeclares([], x)
  {
  }

  /** The rows the walk follows are those covered. */
  lemma HeldIsCovered(b: Binding, j: nat) returns (i: nat)
    requires Indexed(b.entries, b.byId) && j < |b.HeldRows()|
    ensures StartsOver(b, i) && b.entries[i] == b.HeldRows()[j]
  {
    i := if b.whichAt < 0 then j else b.byId[b.defaultId];
  }

  lemma CoveredIsHeld(b: Binding, i: nat) returns (j: nat)
    requires Indexed(b.entries, b.byId) && StartsOver(b, i)
    ensures j < |b.HeldRows()| && b.HeldRows()[j] == b.entries[i]
  {
    j := if b.whichAt < 0 then i else 0;
  }

  ghost predicate CoveredDeclares(b: Binding, x: Item)
    reads b`entries
  {
    exists i: nat :: StartsOver(b, i) && Declares(b.entries[i], x)
  }

  lemma HeldDeclare(b: Binding, x: Item)
    requires Indexed(b.entries, b.byId)
    ensures AnyDeclares(b.HeldRows(), x) <==> CoveredDeclares(b, x)
  {
    hide Declares, Binding.HeldRows, Indexed;
    if CoveredDeclares(b, x) {
      var i: nat :| StartsOver(b, i) && Declares(b.entries[i], x);
      var j := CoveredIsHeld(b, i);
      assert Declares(b.HeldRows()[j], x);
    }
    if AnyDeclares(b.HeldRows(), x) {
      var j :| 0 <= j < |b.HeldRows()| && Declares(b.HeldRows()[j], x);
      var i := HeldIsCovered(b, j);
      assert Declares(b.entries[i], x);
    }
  }

  lemma TableIsDeclared(b: Binding, x: Item)
    requires b.Valid()
    ensures In(x, TableReset(b)) <==> IsWhich(b, x) || CoveredDeclares(b, x)
  {
    RowsOk(b);
    HeldDeclare(b, x);
    RowsItems(b.HeldRows(), x);
    hide WordsOf, ObjectsOf, IntoOf, CoveredDeclares, AnyDeclares, Binding.HeldRows, Indexed, RowsFit;
    var which := if b.whichAt >= 0 then [(b.whichAt as nat, b.defaultId as word)] else [];
    var held := Reset(WordsOf(b.HeldRows()), ObjectsOf(b.HeldRows()), IntoOf(b.HeldRows()));
    assert TableReset(b) == Both(Reset(which, [], []), held) by {
      assert [] + held.objects == held.objects && [] + held.into == held.into;
    }
    InBoth(x, Reset(which, [], []), held);
  }

  lemma {:induction false} BelowInherits(all: set<Binding>, a: Binding, p: seq<nat>, x: Item) returns (q: seq<nat>)
    requires World(all) && Below(all, a, p, x)
    ensures Inherits(all, a, q, x)
    decreases |p|
  {
    InWorld(all, a);
    hide Declares, World, IsWhich, TableReset, Binding.HeldRows, Indexed, RowsFit;
    if p == [] {
      TableIsDeclared(a, x);
      q := [];
      if !IsWhich(a, x) {
        var i: nat :| StartsOver(a, i) && Declares(a.entries[i], x);
        q := [i];
      }
    } else {
      var e := Rows(a, true)[p[0]];
      var i := HeldIsCovered(a, p[0]);
      var rest := BelowInherits(all, e.child, p[1..], x);
      q := [i] + rest;
      assert q[1..] == rest;
    }
  }

  lemma {:induction false} InheritsBelow(all: set<Binding>, a: Binding, q: seq<nat>, x: Item) returns (p: seq<nat>)
    requires World(all) && Inherits(all, a, q, x)
    ensures Below(all, a, p, x)
    decreases |q|
  {
    InWorld(all, a);
    TableIsDeclared(a, x);
    hide Declares, World, IsWhich, TableReset, Binding.HeldRows, Indexed, RowsFit;
    p := [];
    if q != [] && !Declares(a.entries[q[0]], x) {
      var e := a.entries[q[0]];
      var j := CoveredIsHeld(a, q[0]);
      var rest := InheritsBelow(all, e.child, q[1..], x);
      p := [j] + rest;
      assert p[1..] == rest;
    }
  }

  /** What the recursive meaning comes to, in terms of what the rows declare. */
  lemma HoldsDeclared(all: set<Binding>, e: Entry, r: Reset)
    requires World(all) && e.Ok() && Holds(all, e, r)
    ensures AsDeclared(all, e, r)
  {
    hide World, Below, Inherits, Declares;
    forall x: Item
      ensures In(x, r) <==> Starts(all, e, x)
    {
      OwnIsDeclared(e, x);
      if SomewhereBelow(all, e, x) {
        var p: seq<nat> :| Below(all, e.child, p, x);
        var q := BelowInherits(all, e.child, p, x);
      }
      if e.child != null && exists q: seq<nat> :: Inherits(all, e.child, q, x) {
        var q: seq<nat> :| Inherits(all, e.child, q, x);
        var p := InheritsBelow(all, e.child, q, x);
      }
    }
  }

  /** Behind freezing, the row of every option carries exactly what is declared below it. */
  lemma FrozenAsDeclared(all: set<Binding>, b: Binding, i: nat)
    requires World(all) && b in all && Frozen(all, b) && i < |b.entries| && b.whichAt >= 0
    ensures b.prepared[i].which == b.whichAt && AsDeclared(all, b.entries[i], b.prepared[i].reset)
  {
    InWorld(all, b);
    assert Right(all, b, b.entries[i], b.prepared[i]);
    FlatIsRecursive(all, b.entries[i], Order(all, b.entries[i]), b.prepared[i].reset);
    HoldsDeclared(all, b.entries[i], b.prepared[i].reset);
  }

  // ----- freezing -----------------------------------------------------------------------

  /** What freezing puts beside a row: of a union's row its which slot and its reset, of any other nothing. */
  ghost predicate Right(all: set<Binding>, b: Binding, e: Entry, p: Prepared)
    requires World(all) && e.Ok() && (e.child != null ==> e.child in all)
    reads all`entries, all`byId, all`wordsRequired, all`objectsRequired
  {
    if b.whichAt < 0 then p == Prepared(-1, NO_RESET)
    else p == Prepared(b.whichAt, Flattened(all, e)) && Means(all, e, Order(all, e), p.reset)
  }

  ghost predicate AllRight(all: set<Binding>, b: Binding, ps: seq<Prepared>)
    requires World(all) && b in all
    reads all`entries, all`byId, all`wordsRequired, all`objectsRequired
  {
    |ps| == |b.entries| && forall i | 0 <= i < |ps| :: Right(all, b, b.entries[i], ps[i])
  }

  ghost predicate Frozen(all: set<Binding>, b: Binding)
    requires World(all) && b in all
    reads all`entries, all`byId, all`wordsRequired, all`objectsRequired, all`frozen, all`prepared
  {
    b.frozen && AllRight(all, b, b.prepared)
  }

  method PrepareRow(b: Binding, i: nat, ghost all: set<Binding>) returns (p: Prepared)
    requires World(all) && b in all && i < |b.entries|
    ensures Right(all, b, b.entries[i], p)
  {
    if b.whichAt < 0 {
      return Prepared(-1, NO_RESET);
    }
    var r, order := OptionReset(b.entries[i], all);
    return Prepared(b.whichAt, r);
  }

  method PrepareRows(b: Binding, ghost all: set<Binding>) returns (ps: seq<Prepared>)
    requires World(all) && b in all
    ensures AllRight(all, b, ps)
  {
    hide Right;
    ps := [];
    for i := 0 to |b.entries|
      invariant |ps| == i && forall j | 0 <= j < i :: Right(all, b, b.entries[j], ps[j])
    {
      var p := PrepareRow(b, i, all);
      ps := ps + [p];
    }
  }

  /** The tables reached from one are a world of their own. */
  lemma ReachedIsWorld(all: set<Binding>, root: Binding, order: seq<Binding>)
    requires World(all) && root in all && forall b | b in order :: b in all
    requires forall b | b in all :: b in order <==> Reaches(all, false, root, b)
    ensures World(Those(order)) && root in order
  {
    hide Reaches;
    ReachesSelf(all, false, root);
    forall b, i | b in order && 0 <= i < |b.entries| && b.entries[i].child != null
      ensures b.entries[i].child in order
    {
      assert Rows(b, false)[i].child == b.entries[i].child;
      ReachesOn(all, false, root, b, b.entries[i].child);
    }
  }

  /**
   Closes a table and every table below it; from here on none of them can be
   extended.  What is put beside a row depends on the rows alone, so that
   closing a table again changes nothing.
   */
  method Freeze(root: Binding, ghost all: set<Binding>) returns (order: seq<Binding>)
    requires World(all) && root in all
    modifies all`frozen, all`prepared
    ensures World(all) && Once(order) && forall b | b in order :: b in all
    ensures forall b | b in all :: b in order <==> Reaches(all, false, root, b)
    ensures World(Those(order)) && root in order && forall b | b in order :: Frozen(Those(order), b)
    ensures forall b | b in all && b !in order :: b.frozen == old(b.frozen) && b.prepared == old(b.prepared)
  {
    hide World, Reaches, AllRight;
    order := Reachable(root, all);
    ReachedIsWorld(all, root, order);
    ghost var tree := Those(order);
    for i := 0 to |order|
      invariant forall j | 0 <= j < i :: Frozen(tree, order[j])
      invariant forall b | b in all && b !in order :: b.frozen == old(b.frozen) && b.prepared == old(b.prepared)
    {
      var ps := PrepareRows(order[i], tree);
      order[i].frozen := true;
      order[i].prepared := ps;
    }
  }

  // ----- a reset depends on the rows alone ----------------------------------------------

  lemma {:induction false} WalkAlike(s: set<Binding>, t: set<Binding>, stack: seq<Binding>, seen: set<Binding>)
    requires World(s) && World(t) && forall b | b in stack :: b in s && b in t
    ensures Walk(s, stack, seen) == Walk(t, stack, seen)
    decreases |s - seen|, |stack|
  {
    hide Unseen;
    if stack != [] {
      var table, rest := stack[|stack| - 1], stack[..|stack| - 1];
      InWorld(s, table);
      var kids := Unseen(table.HeldRows(), seen);
      UnseenInside(s, table, seen);
      UnseenInside(t, table, seen);
      WalkAlike(s, t, rest + kids, seen + Those(kids));
    }
  }

  lemma {:induction false} TablesAlike(s: set<Binding>, t: set<Binding>, order: seq<Binding>)
    requires World(s) && World(t) && forall b | b in order :: b in s && b in t
    ensures TablesReset(s, order) == TablesReset(t, order)
    decreases |order|
  {
    hide TableReset, Both;
    if order != [] {
      TablesAlike(s, t, order[..|order| - 1]);
    }
  }

  /** Whatever set of tables an option is looked at in, its reset is the same. */
  lemma FlattenedAlike(s: set<Binding>, t: set<Binding>, e: Entry)
    requires World(s) && World(t) && e.Ok() && (e.child != null ==> e.child in s && e.child in t)
    ensures Flattened(s, e) == Flattened(t, e)
  {
    hide World, Walk, TablesReset, OwnReset;
    if e.child != null {
      WalkAlike(s, t, [e.child], {e.child});
    }
    TablesAlike(s, t, Order(s, e));
  }

  /** The storage a whole tree needs: the largest any table of it states. */
  method TreeSizes(root: Binding, ghost all: set<Binding>) returns (nwords: nat, nobjects: nat)
    requires World(all) && root in all
    modifies all`frozen, all`prepared
    ensures World(all)
    ensures forall b | b in all && Reaches(all, false, root, b) ::
      b.frozen && b.wordsRequired <= nwords && b.objectsRequired <= nobjects
    ensures exists b :: b in all && Reaches(all, false, root, b) && b.wordsRequired == nwords
    ensures exists b :: b in all && Reaches(all, false, root, b) && b.objectsRequired == nobjects
  {
    hide World, Reaches, AllRight;
    ReachesSelf(all, false, root);
    var order := Freeze(root, all);
    nwords, nobjects := root.wordsRequired, root.objectsRequired;
    for i := 0 to |order|
      invariant forall j | 0 <= j < i :: order[j].wordsRequired <= nwords && order[j].objectsRequired <= nobjects
      invariant exists b :: b in all && Reaches(all, false, root, b) && b.wordsRequired == nwords
      invariant exists b :: b in all && Reaches(all, false, root, b) && b.objectsRequired == nobjects
    {
      nwords := Max(nwords, order[i].wordsRequired);
      nobjects := Max(nobjects, order[i].objectsRequired);
    }
  }
}
