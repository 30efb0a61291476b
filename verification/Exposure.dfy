/**
 Where an overlaid option is exposed.  The headers that lead to its table write
 which slots and occurrence counts; wherever those keep clear of the option's
 own which slot and of the slots of its reset, there is storage and a message,
 from the start of a decode, that an empty feed at its end shows in the slots.
 A row of the root table has no such headers before it and is always exposed.
 */
module Exposure {
  import opened Wire
  import opened Message
  import opened Schema
  import opened Machine
  import opened Resets
  import opened Chunks
  import opened Overlays

  // ----- storage that shows -------------------------------------------------------------

  /** Does the option's which slot or its reset use the slot? */
  predicate Touches(row: Row, a: nat) {
    a == row.which || exists i | 0 <= i < |row.reset.words| :: row.reset.words[i].0 == a
  }

  /** The storage is one over which the option is held and its reset would show. */
  predicate Telling(row: Row, words: seq<word>, objects: seq<Obj>) {
    SlotsOk(row, |words|, |objects|) && 0 <= row.which && words[row.which] == row.id && Shows(row, words, objects)
  }

  /** Slots the option does not use do not matter to that. */
  lemma TellingAlike(row: Row, words: seq<word>, others: seq<word>, objects: seq<Obj>)
    requires Telling(row, words, objects) && |others| == |words|
    requires forall a | 0 <= a < |words| && Touches(row, a) :: others[a] == words[a]
    ensures Telling(row, others, objects)
  {
    hide ResetWords, ResetObjects, ResetInto;
    forall a | 0 <= a < |words|
      ensures ResetWords(others, row.reset.words)[a] == others[a] ==> ResetWords(words, row.reset.words)[a] == words[a]
    {
      WordAt(words, row.reset.words, a);
      WordAt(others, row.reset.words, a);
    }
  }

  /** There is such storage of every size the row fits. */
  lemma TellingExists(row: Row, nwords: nat, nobjects: nat) returns (words: seq<word>, objects: seq<Obj>)
    requires SlotsOk(row, nwords, nobjects) && Overlaid(row)
    ensures |words| == nwords && |objects| == nobjects && Telling(row, words, objects)
  {
    hide ResetWords, ResetObjects, ResetInto;
    words := seq<word>(nwords, i => if i == row.which then row.id else 0);
    objects := seq(nobjects, _ => Absent);
    if row.reset.objects != [] {
      var b := row.reset.objects[0].0;
      var c := Copied(row.reset.into, b, Or(Last(row.reset.objects, b), Absent));
      objects := seq(nobjects, i => if i == b && c == Absent then Built([]) else Absent);
      ObjectAt(objects, row.reset.objects, b);
      CopyAt(ResetObjects(objects, row.reset.objects), row.reset.into, b);
    } else if row.reset.into != [] {
      NothingToCopyInto(objects, row.reset);
    } else {
      var i :| 0 <= i < |row.reset.words| && !(row.at <= row.reset.words[i].0 <= row.which);
      var a := row.reset.words[i].0;
      var other: word := if Last(row.reset.words, a) == Some(0) then 1 else 0;
      words := seq<word>(nwords, i => if i == row.which then row.id else if i == a then other else 0);
      WordAt(words, row.reset.words, a);
      assert Last(row.reset.words, a).Some?;
    }
  }

  lemma NothingToCopyInto(objects: seq<Obj>, r: Reset)
    requires r.objects == [] && r.into != [] && forall i | 0 <= i < |r.into| :: r.into[i].0 < |objects|
    requires forall i | 0 <= i < |objects| :: objects[i] == Absent
    ensures !ResetInto(ResetObjects(objects, r.objects), r.into).1
  {
  }

  // ----- the headers that lead there ----------------------------------------------------

  /** The rows of a way down: each a sequence of the table before it. */
  predicate Leads(tables: seq<Table>, t: nat, way: seq<Row>, to: nat)
    decreases |way|
  {
    if way == [] then t == to
    else
      && RowIn(tables, Some(t), way[0].id, way[0]) && way[0].kind.KSequence?
      && Leads(tables, way[0].child, way[1..], to)
  }

  /**
   What is written on the way keeps clear of the option: which slots and counts
   are none of its slots, no count is a which slot, and no union is entered by
   two of its options.
   */
  predicate Clear(way: seq<Row>, row: Row) {
    && (forall i | 0 <= i < |way| && way[i].which >= 0 :: !Touches(row, way[i].which))
    && (forall i | 0 <= i < |way| && way[i].countAt >= 0 :: !Touches(row, way[i].countAt))
    && Settled(way)
  }

  predicate Settled(way: seq<Row>) {
    forall i, j | 0 <= i < |way| && 0 <= j < |way| && way[i].which >= 0 ::
      way[j].countAt != way[i].which && (way[j].which == way[i].which ==> way[j].id == way[i].id)
  }

  /** Every option on the way is the one held, and no count is near its end. */
  predicate Prepared(way: seq<Row>, words: seq<word>) {
    && (forall i | 0 <= i < |way| && way[i].which >= 0 ::
          way[i].which < |words| && words[way[i].which] == way[i].id)
    && (forall i | 0 <= i < |way| && way[i].countAt >= 0 ::
          way[i].countAt < |words| && words[way[i].countAt] + |way| < TWO64)
  }

  /** The id a which slot on the way is to hold. */
  function Held(way: seq<Row>, a: nat): Option<nat> {
    if way == [] then None else if way[0].which == a then Some(way[0].id) else Held(way[1..], a)
  }

  lemma {:induction false} HeldIs(way: seq<Row>, a: nat)
    requires Settled(way)
    ensures forall i | 0 <= i < |way| && way[i].which == a :: Held(way, a) == Some(way[i].id)
    ensures (forall i | 0 <= i < |way| :: way[i].which != a) ==> Held(way, a).None?
    decreases |way|
  {
    if way != [] {
      assert forall i | 0 <= i < |way[1..]| :: way[1..][i] == way[i + 1];
      HeldIs(way[1..], a);
      assert forall i | 0 < i < |way| :: way[i] == way[1..][i - 1];
    }
  }

  /** The storage prepared for the way, with the option's own slots left as they are. */
  lemma Prepare(way: seq<Row>, row: Row, words: seq<word>, objects: seq<Obj>) returns (ws: seq<word>)
    requires Telling(row, words, objects) && Clear(way, row) && |way| <= MAX_DEPTH
    requires forall i | 0 <= i < |way| :: way[i].which < |words| && way[i].countAt < |words| && way[i].id <= ID_MAX
    ensures |ws| == |words| && Telling(row, ws, objects) && Prepared(way, ws)
  {
    hide Shows, ResetOk;
    ws := seq<word>(|words|, a requires 0 <= a < |words| =>
      if Touches(row, a) then words[a]
      else if Held(way, a).Some? && Held(way, a).value <= ID_MAX then Held(way, a).value else 0);
    TellingAlike(row, words, ws, objects);
    forall i | 0 <= i < |way| && way[i].which >= 0
      ensures ws[way[i].which] == way[i].id
    {
      HeldIs(way, way[i].which);
    }
    forall i | 0 <= i < |way| && way[i].countAt >= 0
      ensures ws[way[i].countAt] == 0
    {
      HeldIs(way, way[i].countAt);
    }
  }

  /** The bytes of the way. */
  function Heads(way: seq<Row>): seq<byte> {
    if way == [] then [] else Header(way[0].id, SEQUENCE_START) + Heads(way[1..])
  }

  lemma HeadOf(cfg: Config, id: nat, wt: nat, rest: seq<byte>, depth: nat)
    requires id <= ID_MAX && wt < 8
    ensures
      var tail := HeadTail(cfg, wt, id, rest, depth);
      ParseHead(cfg, Header(id, wt) + rest, depth) ==
      if tail.Head? then tail.(used := tail.used + |Header(id, wt)|) else tail
  {
    hide Varint, ReadVarint, HeadTail;
    ReadInvertsVarint(id * 8 + wt, rest);
    assert (Header(id, wt) + rest)[|Header(id, wt)|..] == rest;
  }

  /** Between two fields of a table. */
  predicate Between(cfg: Config, m: M, t: nat) {
    Ok(cfg, m) && m.phase == Walk && m.pending == Nothing && m.table == Some(t)
  }

  /** One header of the way. */
  lemma EnterStep(cfg: Config, m: M, row: Row, t: nat, rest: seq<byte>) returns (n: M)
    requires Between(cfg, m, t) && RowIn(cfg.tables, Some(t), row.id, row) && row.kind.KSequence?
    requires |m.scopes| < MAX_DEPTH && row.which < |m.words| && row.countAt < |m.words|
    requires row.which >= 0 ==> m.words[row.which] == row.id
    requires row.countAt >= 0 ==> m.words[row.countAt] + 1 < TWO64
    ensures Between(cfg, n, row.child) && |n.scopes| == |m.scopes| + 1 && n.objects == m.objects
    ensures n.words == if row.countAt >= 0 then m.words[row.countAt := m.words[row.countAt] + 1] else m.words
    ensures Step(cfg, m, Header(row.id, SEQUENCE_START) + rest) == Next(n, |Header(row.id, SEQUENCE_START)|)
  {
    var s := Header(row.id, SEQUENCE_START) + rest;
    assert RowOk(row, |cfg.tables|, |m.words|, |m.objects|) && row.id <= ID_MAX;
    HeadOf(cfg, row.id, SEQUENCE_START, rest, |m.scopes|);
    Entered(cfg, m, row, t);
    n := EnterRow(m, row).m;
    assert m.(pending := Nothing) == m;
    StepSound(cfg, m, s);
    hide EnterRow, ScopesOk, TablesOk, HeadTail, Header;
    HeaderBytes(row.id, SEQUENCE_START);
  }

  lemma HeaderBytes(id: nat, wt: nat)
    ensures Header(id, wt) != []
  {
  }

  lemma Entered(cfg: Config, m: M, row: Row, t: nat)
    requires Between(cfg, m, t) && RowIn(cfg.tables, Some(t), row.id, row) && row.kind.KSequence?
    requires SlotsOk(row, |m.words|, |m.objects|)
    requires row.which >= 0 ==> m.words[row.which] == row.id
    requires row.countAt >= 0 ==> m.words[row.countAt] + 1 < TWO64
    ensures Lookup(cfg, m.table, row.id, SEQUENCE_START, -1) == Some(row)
    ensures
      var e := EnterRow(m, row);
      && e.Go? && e.m.phase == Walk && e.m.pending == Nothing && e.m.table == Some(row.child)
      && |e.m.scopes| == |m.scopes| + 1 && e.m.objects == m.objects
      && e.m.words == if row.countAt >= 0 then m.words[row.countAt := m.words[row.countAt] + 1] else m.words
  {
    hide ScopesOk, TablesOk, ResetOk;
    SelectTwiceHere(m, row);
  }

  /** What is left of a prepared way behind its first header is prepared. */
  lemma PreparedOn(way: seq<Row>, words: seq<word>, ws: seq<word>)
    requires way != [] && Prepared(way, words) && Settled(way) && |ws| == |words|
    requires ws == if way[0].countAt >= 0 then words[way[0].countAt := words[way[0].countAt] + 1] else words
    ensures Prepared(way[1..], ws) && Settled(way[1..])
  {
    var rest := way[1..];
    assert forall i | 0 <= i < |rest| :: rest[i] == way[i + 1];
  }

  /** A decode comes through the headers of a prepared way, to the table they lead to. */
  lemma {:induction false} WayComes(cfg: Config, m: M, t: nat, way: seq<Row>, to: nat, rest: seq<byte>) returns (n: M)
    requires Between(cfg, m, t) && Leads(cfg.tables, t, way, to)
    requires Prepared(way, m.words) && Settled(way) && |m.scopes| + |way| <= MAX_DEPTH
    ensures Between(cfg, n, to) && |n.words| == |m.words| && n.objects == m.objects
    ensures forall a | 0 <= a < |m.words| && (forall i | 0 <= i < |way| :: way[i].countAt != a) ::
      n.words[a] == m.words[a]
    ensures Visits(cfg, m, Heads(way) + rest, n, rest)
    decreases |way|
  {
    hide Step, Ok, Heads, Header, Prepared, Settled;
    if way == [] {
      n := m;
      NoHeads(rest);
    } else {
      assert way[0] in way;
      FirstOf(way, m.words);
      HeadsStart(way, rest);
      var q := EnterStep(cfg, m, way[0], t, Heads(way[1..]) + rest);
      PreparedOn(way, m.words, q.words);
      n := WayComes(cfg, q, way[0].child, way[1..], to, rest);
      var s := Heads(way) + rest;
      assert s[|Header(way[0].id, SEQUENCE_START)|..] == Heads(way[1..]) + rest;
      forall a | 0 <= a < |m.words| && (forall i | 0 <= i < |way| :: way[i].countAt != a)
        ensures n.words[a] == m.words[a]
      {
        assert way[0].countAt != a;
        assert forall i | 0 <= i < |way[1..]| :: way[1..][i] == way[i + 1];
      }
    }
  }

  lemma FirstOf(way: seq<Row>, words: seq<word>)
    requires way != [] && Prepared(way, words)
    ensures way[0].which >= 0 ==> way[0].which < |words| && words[way[0].which] == way[0].id
    ensures way[0].countAt >= 0 ==> way[0].countAt < |words| && words[way[0].countAt] + 1 < TWO64
  {
  }

  lemma NoHeads(rest: seq<byte>)
    ensures Heads([]) + rest == rest
  {
  }

  lemma HeadsStart(way: seq<Row>, rest: seq<byte>)
    requires way != []
    ensures Heads(way) + rest == Header(way[0].id, SEQUENCE_START) + (Heads(way[1..]) + rest)
  {
  }

  // ----- the option's own header --------------------------------------------------------

  /** How many elements are announced: one more than reach the which slot. */
  function Announcing(row: Row): nat
    requires Overlaid(row)
  {
    row.which - row.at + 2
  }

  function RowHead(row: Row): seq<byte>
    requires Overlaid(row)
  {
    Header(row.id, WireTag(row.kind).0) + Varint(Announcing(row))
  }

  lemma RowHeadRead(cfg: Config, row: Row, depth: nat)
    requires Overlaid(row) && row.id <= ID_MAX
    ensures
      var p := VArray(row.kind.KArraySigned?, Announcing(row));
      ParseHead(cfg, RowHead(row), depth) == Head(WireTag(row.kind).0, row.id, -1, Capped(cfg, p), |RowHead(row)|)
  {
    hide Varint, ReadVarint, ResetsBeside, Varied;
    HeadOf(cfg, row.id, WireTag(row.kind).0, Varint(Announcing(row)), depth);
    ReadInvertsVarint(Announcing(row), []);
    assert Varint(Announcing(row)) + [] == Varint(Announcing(row));
  }

  /** Over telling storage, the state behind it stirs. */
  lemma RowStirs(cfg: Config, m: M, t: nat, row: Row) returns (n: M)
    requires Between(cfg, m, t) && RowIn(cfg.tables, Some(t), row.id, row) && Overlaid(row)
    requires Telling(row, m.words, m.objects)
    ensures Ok(cfg, n) && Stirs(cfg, n) && Visits(cfg, m, RowHead(row), n, [])
  {
    assert RowOk(row, |cfg.tables|, |m.words|, |m.objects|) && row.id <= ID_MAX;
    RowHeadRead(cfg, row, |m.scopes|);
    var p := Capped(cfg, VArray(row.kind.KArraySigned?, Announcing(row)));
    n := m.(pending := p, phase := Take(row.id, Some(row)));
    HeaderBytes(row.id, WireTag(row.kind).0);
    RowHeadGoes(cfg, m, t, row, p);
    StepSound(cfg, m, RowHead(row));
    hide Step, Shows, ResetsBeside, Varied, ScopesOk, TablesOk, RowHead;
    assert RowHead(row)[|RowHead(row)|..] == [];
  }

  lemma RowHeadGoes(cfg: Config, m: M, t: nat, row: Row, p: Pending)
    requires Between(cfg, m, t) && RowIn(cfg.tables, Some(t), row.id, row) && Overlaid(row) && row.id <= ID_MAX
    requires ParseHead(cfg, RowHead(row), |m.scopes|) == Head(WireTag(row.kind).0, row.id, -1, p, |RowHead(row)|)
    requires RowHead(row) != []
    ensures
      Step(cfg, m, RowHead(row)) == Next(m.(pending := p, phase := Take(row.id, Some(row))), |RowHead(row)|)
  {
    hide ParseHead, Shows, ResetsBeside, Varied, ScopesOk, TablesOk, RowHead;
  }

  lemma {:induction false} VisitsOn(cfg: Config, m: M, s: seq<byte>, n: M, t: seq<byte>, q: M, u: seq<byte>)
    requires Ok(cfg, m) && Visits(cfg, m, s, n, t) && Ok(cfg, n) && Visits(cfg, n, t, q, u)
    ensures Visits(cfg, m, s, q, u)
    decreases Measure(m, s)
  {
    hide Step, Ok;
    StepSound(cfg, m, s);
    if !(n == m && t == s) {
      var o := Step(cfg, m, s);
      VisitsOn(cfg, o.m, s[o.used..], n, t, q, u);
    }
  }

  // ----- from the start -------------------------------------------------------------------

  /** An overlaid row a clear way leads to from the root. */
  predicate ExposedBy(cfg: Config, t: nat, row: Row, way: seq<Row>) {
    && RowIn(cfg.tables, Some(t), row.id, row) && Overlaid(row)
    && Leads(cfg.tables, 0, way, t) && |way| <= MAX_DEPTH && Clear(way, row)
  }

  lemma {:induction false} WayFits(cfg: Config, t: nat, way: seq<Row>, to: nat, nwords: nat, nobjects: nat)
    requires ConfigOk(cfg, nwords, nobjects) && Leads(cfg.tables, t, way, to)
    ensures forall i | 0 <= i < |way| :: way[i].which < nwords && way[i].countAt < nwords && way[i].id <= ID_MAX
    decreases |way|
  {
    if way != [] {
      assert RowOk(way[0], |cfg.tables|, nwords, nobjects);
      WayFits(cfg, way[0].child, way[1..], to, nwords, nobjects);
      assert forall i | 0 < i < |way| :: way[i] == way[1..][i - 1];
    }
  }

  /** There is storage, and there are headers, behind which the decode stirs. */
  lemma ExposedStirs(cfg: Config, t: nat, row: Row, way: seq<Row>, nwords: nat, nobjects: nat)
    returns (words: seq<word>, objects: seq<Obj>, s: seq<byte>, n: M)
    requires ConfigOk(cfg, nwords, nobjects) && cfg.tabled && ExposedBy(cfg, t, row, way)
    ensures |words| == nwords && |objects| == nobjects
    ensures Comes(cfg, words, objects, s, n, []) && !Calm(cfg, n)
  {
    assert RowOk(row, |cfg.tables|, nwords, nobjects);
    WayFits(cfg, 0, way, t, nwords, nobjects);
    var tell;
    tell, objects := TellingExists(row, nwords, nobjects);
    words := Prepare(way, row, tell, objects);
    hide Step, Ok, Telling, Heads, RowHead, Prepared, Overlaid, Stirs, Leads, Visits, SlotsOk, ConfigOk;
    StartOk(cfg, words, objects);
    var m := Start(cfg, words, objects);
    var q := WayComes(cfg, m, 0, way, t, RowHead(row));
    forall a | 0 <= a < |words| && Touches(row, a)
      ensures q.words[a] == words[a]
    {
    }
    TellingAlike(row, words, q.words, objects);
    n := RowStirs(cfg, q, t, row);
    s := Heads(way) + RowHead(row);
    VisitsOn(cfg, m, s, q, RowHead(row), n, []);
  }

  /**
   Every overlaid row that a clear way leads to has storage and a message, from
   the start of a decode, to which an empty feed makes a difference.
   */
  lemma ExposedFails(cfg: Config, t: nat, row: Row, way: seq<Row>, nwords: nat, nobjects: nat)
    returns (words: seq<word>, objects: seq<Obj>, a: seq<byte>)
    requires ConfigOk(cfg, nwords, nobjects) && cfg.tabled && ExposedBy(cfg, t, row, way)
    ensures |words| == nwords && |objects| == nobjects
    ensures
      var d := First(cfg, words, objects);
      Feed(cfg, Feed(cfg, d, a), []) != Feed(cfg, d, a)
  {
    hide Feed, Calm, ConfigOk, ExposedBy;
    var s, n;
    words, objects, s, n := ExposedStirs(cfg, t, row, way, nwords, nobjects);
    a := ComesToFail(cfg, words, objects, s, n, []);
  }

  /** Every overlaid row of the root table does, without any condition. */
  lemma RootFails(cfg: Config, row: Row, nwords: nat, nobjects: nat)
    returns (words: seq<word>, objects: seq<Obj>, a: seq<byte>)
    requires ConfigOk(cfg, nwords, nobjects) && cfg.tabled && RowIn(cfg.tables, Some(0), row.id, row) && Overlaid(row)
    ensures |words| == nwords && |objects| == nobjects
    ensures
      var d := First(cfg, words, objects);
      Feed(cfg, Feed(cfg, d, a), []) != Feed(cfg, d, a)
  {
    hide Feed, ConfigOk, Overlaid;
    words, objects, a := ExposedFails(cfg, 0, row, [], nwords, nobjects);
  }

  /** A clear way leads to every overlaid row the tables have. */
  ghost predicate AllExposed(cfg: Config) {
    cfg.tabled ==>
      forall t, id | 0 <= t < |cfg.tables| && id in cfg.tables[t].rows && Overlaid(cfg.tables[t].rows[id]) ::
        exists way :: ExposedBy(cfg, t, cfg.tables[t].rows[id], way)
  }

  /**
   Told from the tables alone: without an overlaid option the cutting never
   shows; and where a clear way leads to every overlaid one, the options of the
   root table among them, it never shows if and only if there is none.
   */
  lemma ExposedIff(cfg: Config, nwords: nat, nobjects: nat)
    requires ConfigOk(cfg, nwords, nobjects)
    ensures Unlaid(cfg) ==> CutsAgree(cfg, nwords, nobjects)
    ensures AllExposed(cfg) ==> (CutsAgree(cfg, nwords, nobjects) <==> Unlaid(cfg))
  {
    hide Feed, Overlaid, ExposedBy, TablesOk;
    if Unlaid(cfg) {
      UnlaidNeverStirs(cfg, nwords, nobjects);
      DecodesIff(cfg, nwords, nobjects);
    } else if AllExposed(cfg) {
      var t, id :| 0 <= t < |cfg.tables| && id in cfg.tables[t].rows && Overlaid(cfg.tables[t].rows[id]);
      var way :| ExposedBy(cfg, t, cfg.tables[t].rows[id], way);
      var words, objects, a := ExposedFails(cfg, t, cfg.tables[t].rows[id], way, nwords, nobjects);
      EmptyCut(cfg, words, objects, a);
    }
  }

  // ----- an overlaid option that is not exposed -------------------------------------------

  /** The root's one option is a sequence whose own union has the same which slot, 0. */
  const OUTER := Row(KSequence, 1, 0, 0, -1, 1, 0, 0, false, false, 0, Reset([(0, 0)], [], []))

  /** That union's one option: two elements of at most 5 over the which slot, their count in slot 2. */
  const INNER := Row(KArrayUnsigned, 9, 0, 2, 2, 0, 0, 5, true, false, 0, Reset([(2, 0)], [], []))

  const SHIELDED := [Table(map[1 := OUTER], false), Table(map[9 := INNER], false)]

  /** Is the inner union open? */
  predicate Inside(m: M) {
    m.table == Some(1) || exists i | 0 <= i < |m.scopes| :: m.scopes[i].table == Some(1)
  }

  /** Entering it has stored 1 in the which slot; where 9 stands there since, the count has been reset behind that. */
  predicate Shielded(m: M) {
    |m.words| == 3 && (Inside(m) && m.words[0] == 9 ==> m.words[2] == 0)
  }

  lemma ShieldedIsCalm(cfg: Config, m: M)
    requires cfg.tables == SHIELDED && Ok(cfg, m) && Shielded(m)
    ensures !Stirs(cfg, m)
  {
    if m.phase.Take? && m.phase.row.Some? {
      var row := m.phase.row.value;
      assert RowIn(SHIELDED, m.table, m.phase.id, row);
      if Overlaid(row) {
        assert row == INNER && INNER.reset.words == [(2, 0)];
        hide Overlaid;
        if m.words[0] == 9 {
          assert ResetWords(m.words, [(2, 0)]) == m.words[2 := 0];
        }
      }
    }
  }

  /** The inner option's attempts: behind a reset or not, elements in the which slot are not its id. */
  lemma InnerKeeps(m: M, s: seq<byte>)
    requires Chunks.Takable(m, INNER) && |m.words| == 3 && (m.words[0] == 9 ==> m.words[2] == 0)
    ensures
      var n := TakeMapped(m, INNER, s).m;
      |n.words| == 3 && (n.words[0] == 9 ==> n.words[2] == 0)
  {
    var (picked, fits) := Select(m, INNER);
    assert INNER.reset.words == [(2, 0)] && ResetWords(m.words, [(2, 0)]) == m.words[2 := 0];
    assert fits && picked.words[0] == 9 && picked.words[2] == 0;
    hide Select, TakeReady, TakeInts;
    var settled := Settle(m.pending, INNER.Declared());
    if settled.Some? {
      var ready := picked.(pending := settled.value);
      ReadyIsInts(ready, INNER, s);
      InnerFills(ready, s);
    }
  }

  lemma InnerFills(m: M, s: seq<byte>)
    requires SlotsOk(INNER, |m.words|, |m.objects|) && |m.words| == 3 && m.words[2] == 0
    requires m.pending.VArray? && m.pending.count <= 2
    ensures
      var n := TakeInts(m, INNER, s).m;
      |n.words| == 3 && (n.words[0] == 9 ==> n.words[2] == 0)
  {
    hide ReadElems;
    ReadElemsBounds(s, m.pending.count, false, RowLo(INNER), RowHi(INNER));
  }

  lemma EnterShields(m: M)
    requires SlotsOk(OUTER, |m.words|, |m.objects|) && |m.words| == 3
    ensures
      var t := EnterRow(m, OUTER);
      |t.m.words| == 3 && (t.Go? ==> t.m.words[0] == 1)
  {
    assert OUTER.reset.words == [(0, 0)];
  }

  lemma DispatchShields(cfg: Config, m: M, wt: nat, id: nat, sub: int)
    requires cfg.tables == SHIELDED && Ok(cfg, m) && Shielded(m) && m.phase == Walk && wt < 8 && id <= ID_MAX
    requires wt == SEQUENCE_END ==> m.scopes != []
    requires wt < SEQUENCE_START ==> Announced(Bare(m.pending))
    ensures
      var t := Dispatch(cfg, m, wt, id, sub);
      t.Go? ==> Shielded(t.m)
  {
    var row := Lookup(cfg, m.table, id, wt, sub);
    if row.Some? && wt == SEQUENCE_START {
      assert row.value == OUTER && RowOk(OUTER, 2, |m.words|, |m.objects|);
      EnterShields(m);
    } else if wt < SEQUENCE_START {
      OfferShape(cfg, m, id, wt, sub);
    }
    hide Select, Offer, ScopesOk, TablesOk, SlotsOk;
    if wt == SEQUENCE_START && row.None? && !Closed(cfg, m.table) {
      HandlerShields(cfg, m, id);
    }
  }

  lemma HandlerShields(cfg: Config, m: M, id: nat)
    requires Shielded(m)
    ensures Shielded(EnterHandler(cfg, m, id))
  {
    var n := EnterHandler(cfg, m, id);
    if Inside(n) {
      if i :| 0 <= i < |n.scopes| && n.scopes[i].table == Some(1) {
        assert i < |m.scopes| ==> n.scopes[i] == m.scopes[i];
      }
    }
  }

  lemma StepShields(cfg: Config, m: M, s: seq<byte>)
    requires cfg.tables == SHIELDED && Ok(cfg, m) && Shielded(m)
    ensures
      var o := Step(cfg, m, s);
      o.Next? ==> Shielded(o.m)
  {
    hide TakeMapped, Visit, ParseHead, Dispatch, SkipPending, ScopesOk, TablesOk;
    if m.phase.Take? {
      RowTakable(cfg, m);
      if m.phase.row.Some? {
        var row := m.phase.row.value;
        assert RowIn(SHIELDED, m.table, m.phase.id, row) && row == INNER;
        InnerKeeps(m, s);
      } else {
        VisitsNothing(cfg, m, m.phase.id, s);
      }
    } else if m.pending != Nothing {
      SkipsNothing(m, s);
    } else if s != [] {
      ParseHeadBounds(cfg, s, Machine.Depth(m));
      var h := ParseHead(cfg, s, Machine.Depth(m));
      if h.Head? && m.phase.Walk? {
        DispatchShields(cfg, m.(pending := h.pending), h.wt, h.id, h.sub);
      }
    }
  }

  lemma VisitsNothing(cfg: Config, m: M, id: nat, s: seq<byte>)
    requires m.visitor.Some? && Announced(Bare(m.pending))
    ensures Visit(cfg, m, id, s).m.words == m.words
  {
    hide ReadVarint, ReadElems;
  }

  lemma SkipsNothing(m: M, s: seq<byte>)
    requires PendingOk(m.pending) && m.pending != Nothing
    ensures SkipPending(m, s).m == m.(pending := SkipPending(m, s).m.pending)
  {
    hide ReadVarint, DropVarints;
  }

  lemma {:induction false} VisitedShielded(cfg: Config, m: M, s: seq<byte>, n: M, t: seq<byte>)
    requires cfg.tables == SHIELDED && Ok(cfg, m) && Shielded(m) && Visits(cfg, m, s, n, t)
    ensures Ok(cfg, n) && Shielded(n)
    decreases Measure(m, s)
  {
    hide Step, Ok, Shielded;
    StepSound(cfg, m, s);
    StepShields(cfg, m, s);
    if !(n == m && t == s) {
      var o := Step(cfg, m, s);
      VisitedShielded(cfg, o.m, s[o.used..], n, t);
    }
  }

  /**
   The condition on tables cannot be necessary without the way being clear: the
   header that leads to this option stores another id over its own, no element
   can put it back, and no decode depends on the cutting.
   */
  lemma OverlaidYetCalm(cfg: Config)
    requires cfg.tables == SHIELDED && cfg.tabled && ConfigOk(cfg, 3, 0)
    ensures RowIn(cfg.tables, Some(1), 9, INNER) && Overlaid(INNER) && CutsAgree(cfg, 3, 0)
  {
    assert INNER.reset.words[0] == (2, 0);
    forall words: seq<word>, objects: seq<Obj>, s: seq<byte>, n: M, t: seq<byte>
      | |words| == 3 && |objects| == 0 && Comes(cfg, words, objects, s, n, t)
      ensures Calm(cfg, n)
    {
      StartOk(cfg, words, objects);
      VisitedShielded(cfg, Start(cfg, words, objects), s, n, t);
      ShieldedIsCalm(cfg, n);
    }
    DecodesIff(cfg, 3, 0);
  }
}
