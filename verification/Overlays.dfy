/**
 Array options laid over their own which slot.  What a decode leaves in the
 slots depends on how its message was cut exactly where a field of such an
 option can be met while it is the option held and a slot of its reset is not
 at its reset value; module `Exposure` shows that it can wherever the headers
 leading there write beside those slots, and module `Shadows` that nothing but
 slots ever depends on it.
 */
module Overlays {
  import opened Wire
  import opened Message
  import opened Schema
  import opened Machine
  import opened Resets
  import opened Chunks
  import opened Locality
  import F = Floats
  import Utf8

  // ----- elements up to the which slot --------------------------------------------------

  /** An element the row admits that is not its id. */
  function Other(row: Row): (v: int)
    requires Varied(row) && row.id <= ID_MAX
    ensures RowLo(row) <= v <= RowHi(row) && ValueOk(row.kind.KArraySigned?, v) && Slot(v) != row.id
  {
    var low := if !row.kind.KArraySigned? then (if RowLo(row) < 0 then 0 else RowLo(row))
               else if RowLo(row) < -TWO63 then -TWO63 else RowLo(row);
    var top := if row.kind.KArraySigned? then TWO63 - 1 else TWO64 - 1;
    var high := if RowHi(row) < top then RowHi(row) else top;
    if low != row.id then low else high
  }

  /** Elements of a run that has more to come. */
  lemma {:induction false} ElementsShort(signed: bool, vs: seq<int>, count: nat, lo: int, hi: int)
    requires |vs| < count && forall i | 0 <= i < |vs| :: ValueOk(signed, vs[i]) && lo <= vs[i] <= hi
    ensures
      ReadElems(Message.Elements(signed, vs), count, signed, lo, hi) == Elems(vs, |Message.Elements(signed, vs)|, Short)
    decreases |vs|
  {
    hide Varint, ReadVarint, Cooked, Raw, ValueOk;
    if vs != [] {
      OneElement(signed, vs[0], Message.Elements(signed, vs[1..]));
      ElementsShort(signed, vs[1..], count - 1, lo, hi);
      assert vs == [vs[0]] + vs[1..];
    } else {
      NoVarint();
    }
  }

  lemma NoVarint()
    ensures ReadVarint([]) == More
  {
  }

  lemma OneElement(signed: bool, v: int, tail: seq<byte>)
    requires ValueOk(signed, v)
    ensures
      var raw := Raw(signed, v);
      && raw < TWO64 && Cooked(signed, raw) == v
      && ReadVarint(Varint(raw) + tail) == Got(raw, |Varint(raw)|)
      && (Varint(raw) + tail)[|Varint(raw)|..] == tail
  {
    RawCooked(signed, v, 0);
    ReadInvertsVarint(Raw(signed, v), tail);
  }

  /** Elements up to the which slot, none of them the id. */
  function Others(row: Row): (vs: seq<int>)
    requires Overlaid(row) && row.id <= ID_MAX
    ensures |vs| == row.which - row.at + 1 && forall i | 0 <= i < |vs| :: vs[i] == Other(row)
  {
    seq(row.which - row.at + 1, _ => Other(row))
  }

  /** Their bytes. */
  function Telltale(row: Row): seq<byte>
    requires Overlaid(row) && row.id <= ID_MAX
  {
    Message.Elements(row.kind.KArraySigned?, Others(row))
  }

  // ----- two attempts ---------------------------------------------------------------------

  /** There are more elements to come than reach the which slot. */
  predicate Reaching(m: M, row: Row) {
    && Takable(m, row) && Overlaid(row) && row.id <= ID_MAX
    && Bare(m.pending).VArray? && row.which - row.at + 1 < Bare(m.pending).count <= row.cap
  }

  /** An attempt over those bytes fills the slots up to the which slot and waits. */
  lemma AttemptFills(m: M, row: Row)
    requires Reaching(m, row) && Select(m, row).1
    ensures
      var picked := Select(m, row).0;
      TakeMapped(m, row, Telltale(row)) ==
      Wait(picked.(pending := Bare(m.pending), words := Fill(picked.words, row.at, Slots(Others(row)))), 0)
  {
    var picked, run := Select(m, row).0, Telltale(row);
    ElementsShort(row.kind.KArraySigned?, Others(row), Bare(m.pending).count, RowLo(row), RowHi(row));
    hide Select, ReadElems, Message.Elements, Fill, Slots, Others, TakeInts, TakeReady, SlotsOk, RowLo, RowHi;
    OverlaidFits(row);
    hide Overlaid;
    var ready := picked.(pending := Bare(m.pending));
    ReadyIsInts(ready, row, run);
    IntsWait(ready, row, run);
  }

  lemma OverlaidFits(row: Row)
    requires Overlaid(row)
    ensures IsIntArray(row.kind) && 0 <= row.at <= row.which
    ensures row.which - row.at + 2 <= row.cap && row.which - row.at + 2 <= ARRAY_MAX
  {
  }

  lemma IntsWait(m: M, row: Row, s: seq<byte>)
    requires SlotsOk(row, |m.words|, |m.objects|) && IsIntArray(row.kind)
    requires m.pending.VArray? && m.pending.count <= row.cap && Announced(m.pending)
    requires Chunks.Elements(row, m.pending, s).end.Short?
    ensures row.at + |Chunks.Elements(row, m.pending, s).values| <= |m.words|
    ensures TakeInts(m, row, s) ==
      Wait(m.(words := Fill(m.words, row.at, Slots(Chunks.Elements(row, m.pending, s).values))), 0)
  {
    ReadElemsBounds(s, m.pending.count, row.kind.KArraySigned?, RowLo(row), RowHi(row));
  }

  /** The slots up to the which slot have been filled, the id among them. */
  predicate Overwritten(row: Row, words: seq<word>, objects: seq<Obj>, m: M)
    requires 0 <= row.which < |words|
  {
    && SameBeside(words, m.words, row.at, Reach(row))
    && m.objects == objects && m.words[row.which] != row.id
  }

  /** Selecting the option once more is refused or shows beside the slots refilled. */
  predicate Differs(row: Row, words: seq<word>, objects: seq<Obj>, m: M)
    requires SlotsOk(row, |m.words|, |m.objects|) && |words| == |m.words|
  {
    var (n, fits) := Select(m, row);
    !fits || n.objects != objects || !SameBeside(words, n.words, row.at, Reach(row))
  }

  /** A reset that would have shown shows behind the filled slots too. */
  lemma ShowsLater(row: Row, words: seq<word>, objects: seq<Obj>, m: M)
    requires SlotsOk(row, |words|, |objects|) && SlotsOk(row, |m.words|, |m.objects|)
    requires Overlaid(row) && Shows(row, words, objects) && Overwritten(row, words, objects, m)
    ensures Differs(row, words, objects, m)
  {
    hide ResetWords, ResetObjects, ResetInto;
    var n := Select(m, row).0;
    if !Differs(row, words, objects, m) {
      forall a | 0 <= a < |words| && !(row.at <= a < row.at + Reach(row))
        ensures ResetWords(words, row.reset.words)[a] == words[a]
      {
        SelectedWord(m, row, a);
        WordAt(words, row.reset.words, a);
        assert n.words[a] == words[a];
      }
    }
  }

  /** A feed that leaves the value waiting. */
  lemma FeedWaits(cfg: Config, m: M, n: M, held: seq<byte>, chunk: seq<byte>)
    requires Ok(cfg, m) && Step(cfg, m, held + chunk) == Wait(n, 0)
    ensures Feed(cfg, Live(m, held), chunk) == Live(n, held + chunk)
  {
    hide Step, Ok;
    Unfold(cfg, m, held + chunk);
  }

  lemma FeedRefuses(cfg: Config, m: M, held: seq<byte>, chunk: seq<byte>)
    requires Ok(cfg, m) && Step(cfg, m, held + chunk).Stop?
    ensures Feed(cfg, Live(m, held), chunk).Dead?
  {
    hide Step, Ok;
    Unfold(cfg, m, held + chunk);
  }

  lemma TakeStep(cfg: Config, m: M, row: Row, s: seq<byte>)
    requires Ok(cfg, m) && m.phase.Take? && m.phase.row == Some(row)
    ensures SlotsOk(row, |m.words|, |m.objects|) && !row.kind.KSequence?
    ensures PendingOk(m.pending) && Announced(Bare(m.pending)) && WireTag(row.kind) == TagOf(Bare(m.pending))
    ensures Step(cfg, m, s) == TakeMapped(m, row, s)
    ensures !Select(m, row).1 ==> Step(cfg, m, s).Stop?
  {
  }

  lemma BesideTwice(a: seq<word>, b: seq<word>, c: seq<word>, d: seq<word>, at: nat, k: nat)
    requires SameBeside(a, b, at, k) && SameBeside(c, d, at, k) && b == d
    ensures SameBeside(a, c, at, k)
  {
    forall i | 0 <= i < |a| && !(at <= i < at + k)
      ensures a[i] == c[i]
    {
      assert a[i] == b[i] && c[i] == d[i];
    }
  }

  /** Met in that state, the option is reset by the attempt behind the one that waits. */
  lemma StirringFails(cfg: Config, m: M) returns (n: M)
    requires Ok(cfg, m) && Stirs(cfg, m)
    ensures m.phase.Take? && m.phase.row.Some?
    ensures
      var row := m.phase.row.value;
      && Overlaid(row) && row.id <= ID_MAX
      && Step(cfg, m, Telltale(row)) == Wait(n, 0)
      && Ok(cfg, n) && Feed(cfg, Live(n, Telltale(row)), []) != Live(n, Telltale(row))
  {
    var row := m.phase.row.value;
    RowTakable(cfg, m);
    var a := Telltale(row);
    var filled := Fill(m.words, row.at, Slots(Others(row)));
    FillKeeps(m.words, row.at, Slots(Others(row)));
    assert filled[row.at + (row.which - row.at)] == Slot(Other(row));
    SelectTwiceHere(m, row);
    AttemptFills(m, row);
    n := m.(pending := Bare(m.pending), words := filled);
    hide TakeMapped, Select, Fill, Telltale, Ok, Slots, Shows;
    TakeStep(cfg, m, row, a);
    StepSound(cfg, m, a);
    SecondFails(cfg, m, n, row);
  }

  lemma SecondFails(cfg: Config, m: M, n: M, row: Row)
    requires Ok(cfg, n) && n.phase.Take? && n.phase.row == Some(row) && Reaching(n, row) && n.pending == Bare(n.pending)
    requires SlotsOk(row, |m.words|, |m.objects|) && Shows(row, m.words, m.objects)
    requires |n.words| == |m.words| && Overwritten(row, m.words, m.objects, n)
    ensures Feed(cfg, Live(n, Telltale(row)), []) != Live(n, Telltale(row))
  {
    hide TakeMapped, Select, Fill, Telltale, Ok, Slots, SlotsOk, Shows;
    var a := Telltale(row);
    assert a + [] == a;
    TakeStep(cfg, n, row, a);
    ShowsLater(row, m.words, m.objects, n);
    if Select(n, row).1 {
      AttemptFills(n, row);
      var picked := Select(n, row).0;
      var again := picked.(pending := n.pending, words := Fill(picked.words, row.at, Slots(Others(row))));
      FillKeeps(picked.words, row.at, Slots(Others(row)));
      FeedWaits(cfg, n, again, a, []);
      if again == n {
        BesideTwice(m.words, n.words, picked.words, again.words, row.at, Reach(row));
      }
    } else {
      FeedRefuses(cfg, n, a, []);
    }
  }

  // ----- decodes from the start ---------------------------------------------------------

  /** A decode that has been fed nothing. */
  function First(cfg: Config, words: seq<word>, objects: seq<Obj>): (d: Decode)
    requires ConfigOk(cfg, |words|, |objects|)
    ensures DecodeOk(cfg, d) && d.Live? && d.held == []
  {
    StartOk(cfg, words, objects);
    Live(Start(cfg, words, objects), [])
  }

  lemma StartOk(cfg: Config, words: seq<word>, objects: seq<Obj>)
    requires ConfigOk(cfg, |words|, |objects|)
    ensures Ok(cfg, Start(cfg, words, objects))
  {
    hide TablesOk;
  }

  /** Over any storage of these sizes, any message, cut in any way, decodes as in one feed. */
  ghost predicate CutsAgree(cfg: Config, nwords: nat, nobjects: nat)
    requires ConfigOk(cfg, nwords, nobjects)
  {
    forall words: seq<word>, objects: seq<Obj>, chunks: seq<seq<byte>>
      | |words| == nwords && |objects| == nobjects && chunks != [] ::
      FeedAll(cfg, First(cfg, words, objects), chunks) == Feed(cfg, First(cfg, words, objects), Flatten(chunks))
  }

  /** Over any storage of these sizes and any bytes, no field is met in the state above. */
  ghost predicate NeverStirs(cfg: Config, nwords: nat, nobjects: nat)
    requires ConfigOk(cfg, nwords, nobjects)
  {
    forall words: seq<word>, objects: seq<Obj>, s: seq<byte>, n: M, t: seq<byte>
      | |words| == nwords && |objects| == nobjects && Comes(cfg, words, objects, s, n, t) :: Calm(cfg, n)
  }

  /** The decode of `s` comes to `n` with `t` left to read. */
  ghost predicate Comes(cfg: Config, words: seq<word>, objects: seq<Obj>, s: seq<byte>, n: M, t: seq<byte>)
    requires ConfigOk(cfg, |words|, |objects|)
  {
    StartOk(cfg, words, objects);
    Visits(cfg, Start(cfg, words, objects), s, n, t)
  }

  ghost predicate Calm(cfg: Config, m: M) {
    Ok(cfg, m) ==> !Stirs(cfg, m)
  }

  /** The bytes up to a state that stirs and elements up to the which slot: an empty feed behind them shows. */
  lemma ComesToFail(cfg: Config, words: seq<word>, objects: seq<Obj>, s: seq<byte>, n: M, t: seq<byte>)
    returns (a: seq<byte>)
    requires ConfigOk(cfg, |words|, |objects|) && Comes(cfg, words, objects, s, n, t) && !Calm(cfg, n)
    ensures
      var d := First(cfg, words, objects);
      Feed(cfg, Feed(cfg, d, a), []) != Feed(cfg, d, a)
  {
    hide Ok, Stirs, Run, Visits, ConfigOk, Telltale, Overlaid, Step, Start;
    var m := Start(cfg, words, objects);
    StartOk(cfg, words, objects);
    var after := StirringFails(cfg, n);
    var x := Telltale(n.phase.row.value);
    VisitsLocal(cfg, m, s, n, t, x);
    var used := |s| - |t|;
    a := s[..used] + x;
    Unfold(cfg, n, x);
    FeedEnds(cfg, m, a, after, used, x);
  }

  lemma FeedEnds(cfg: Config, m: M, a: seq<byte>, after: M, used: nat, x: seq<byte>)
    requires Ok(cfg, m) && Run(cfg, m, a) == Wait(after, used) && used <= |a| && x == a[used..]
    ensures Feed(cfg, Live(m, []), a) == Live(after, x)
  {
    hide Run, Ok;
    assert [] + a == a;
  }

  /** Where nothing stirs, every run of the decode can be taken up. */
  lemma {:induction false} CalmResumes(cfg: Config, m: M, s: seq<byte>, ext: seq<byte>)
    requires Ok(cfg, m) && forall n, t | Visits(cfg, m, s, n, t) :: Calm(cfg, n)
    ensures Resumes(cfg, m, s, ext)
    decreases Measure(m, s)
  {
    hide Step, Ok, Absorbed, Stirs;
    StepSound(cfg, m, s);
    StepLasts(cfg, m, s, ext);
    assert Visits(cfg, m, s, m, s);
    match Step(cfg, m, s)
    case Next(q, used) =>
      forall n, t | Visits(cfg, q, s[used..], n, t)
        ensures Calm(cfg, n)
      {
        assert Visits(cfg, m, s, n, t);
      }
      CalmResumes(cfg, q, s[used..], ext);
    case _ =>
  }

  lemma {:induction false} CalmCuts(
    cfg: Config, words: seq<word>, objects: seq<Obj>, pre: seq<byte>, chunks: seq<seq<byte>>)
    requires ConfigOk(cfg, |words|, |objects|) && NeverStirs(cfg, |words|, |objects|)
    ensures
      var d := First(cfg, words, objects);
      FeedAll(cfg, Feed(cfg, d, pre), chunks) == Feed(cfg, d, pre + Flatten(chunks))
    decreases |chunks|
  {
    hide Feed, ConfigOk, Resumes, Calm, Visits;
    var d := First(cfg, words, objects);
    if chunks == [] {
      assert pre + [] == pre;
    } else {
      var s := d.held + pre;
      forall n, t | Visits(cfg, d.m, s, n, t)
        ensures Calm(cfg, n)
      {
        assert Comes(cfg, words, objects, s, n, t);
      }
      CalmResumes(cfg, d.m, s, chunks[0]);
      FeedResumes(cfg, d, pre, chunks[0]);
      CalmCuts(cfg, words, objects, pre + chunks[0], chunks[1..]);
      assert pre + chunks[0] + Flatten(chunks[1..]) == pre + (chunks[0] + Flatten(chunks[1..]));
    }
  }

  /**
   The condition is exact.  Decodes do not depend on how their messages are
   cut, slots included, if and only if no decode comes to a field of an array
   option laid over its own which slot while that option is held, more elements
   are announced than reach the which slot, and its reset, replayed there,
   would change anything beside the slots up to it.
   */
  lemma DecodesIff(cfg: Config, nwords: nat, nobjects: nat)
    requires ConfigOk(cfg, nwords, nobjects)
    ensures CutsAgree(cfg, nwords, nobjects) <==> NeverStirs(cfg, nwords, nobjects)
  {
    hide Feed, Calm, ConfigOk;
    if NeverStirs(cfg, nwords, nobjects) {
      forall words: seq<word>, objects: seq<Obj>, chunks: seq<seq<byte>>
        | |words| == nwords && |objects| == nobjects && chunks != []
        ensures
          FeedAll(cfg, First(cfg, words, objects), chunks) == Feed(cfg, First(cfg, words, objects), Flatten(chunks))
      {
        CalmCuts(cfg, words, objects, chunks[0], chunks[1..]);
      }
    } else {
      var words: seq<word>, objects: seq<Obj>, s: seq<byte>, n: M, t: seq<byte> :|
        |words| == nwords && |objects| == nobjects && Comes(cfg, words, objects, s, n, t) && !Calm(cfg, n);
      var a := ComesToFail(cfg, words, objects, s, n, t);
      EmptyCut(cfg, words, objects, a);
    }
  }

  /** An empty feed that shows is a cut that shows. */
  lemma EmptyCut(cfg: Config, words: seq<word>, objects: seq<Obj>, a: seq<byte>)
    requires ConfigOk(cfg, |words|, |objects|)
    requires
      var d := First(cfg, words, objects);
      Feed(cfg, Feed(cfg, d, a), []) != Feed(cfg, d, a)
    ensures !CutsAgree(cfg, |words|, |objects|)
  {
    hide Feed, ConfigOk;
    var d, none: seq<byte> := First(cfg, words, objects), [];
    var cut: seq<seq<byte>> := [a, none];
    var rest := cut[1..];
    assert rest == [none] && rest[1..] == cut[2..] && cut[2..] == [];
    assert FeedAll(cfg, d, cut) == FeedAll(cfg, Feed(cfg, d, a), rest);
    assert FeedAll(cfg, Feed(cfg, d, a), rest) == FeedAll(cfg, Feed(cfg, Feed(cfg, d, a), none), cut[2..]);
    assert Flatten(rest) == none + Flatten(cut[2..]) && a + Flatten(rest) == a && Flatten(cut) == a;
    assert FeedAll(cfg, First(cfg, words, objects), cut) != Feed(cfg, First(cfg, words, objects), Flatten(cut));
  }

  /** Tables without an overlaid option are calm. */
  lemma UnlaidNeverStirs(cfg: Config, nwords: nat, nobjects: nat)
    requires ConfigOk(cfg, nwords, nobjects) && Unlaid(cfg)
    ensures NeverStirs(cfg, nwords, nobjects)
  {
    hide Visits, Unlaid, Stirs, Ok;
    forall n: M | Ok(cfg, n)
      ensures !Stirs(cfg, n)
    {
      UnlaidIsCalm(cfg, n);
    }
  }

  // ----- the smallest message that shows it -----------------------------------------

  /** An option of two unsigned elements over its which slot 0, its count in slot 2. */
  const OVER_WHICH := Row(KArrayUnsigned, 1, 0, 2, 2, 0, 0, 0, false, false, 0, Reset([(2, 0)], [], []))

  const OVER_TABLES := [Table(map[1 := OVER_WHICH], false)]

  function Smallest(cfg: Config): Config {
    cfg.(tables := OVER_TABLES, tabled := true, visitor := None)
  }

  /** The array with one of its two elements there. */
  function HalfWay(words: seq<word>): M {
    M(Take(1, Some(OVER_WHICH)), VArray(false, 2), Some(0), None, [], words, [], [])
  }

  lemma SmallestOk(cfg: Config, words: seq<word>)
    requires ConfigOk(cfg, 3, 0) && |words| == 3
    ensures ConfigOk(Smallest(cfg), 3, 0) && Overlaid(OVER_WHICH)
    ensures Ok(Smallest(cfg), Start(Smallest(cfg), words, [])) && Ok(Smallest(cfg), HalfWay(words))
  {
    assert OVER_WHICH.reset.words[0].0 == 2;
    assert OVER_TABLES[0].rows[1] == OVER_WHICH;
  }

  lemma FirstHeader(cfg: Config)
    requires ConfigOk(cfg, 3, 0) && cfg.arrayCap >= 2
    ensures Ok(Smallest(cfg), Start(Smallest(cfg), [1, 9, 5], []))
    ensures Step(Smallest(cfg), Start(Smallest(cfg), [1, 9, 5], []), [0x0B, 2, 7]) == Next(HalfWay([1, 9, 5]), 2)
  {
    SmallestOk(cfg, [1, 9, 5]);
    var c := Smallest(cfg);
    var s: seq<byte> := [0x0B, 2, 7];
    assert ReadVarint(s) == Got(11, 1);
    assert s[1..] == [2, 7] && ReadVarint(s[1..]) == Got(2, 1);
    assert ParseHead(c, s, 0) == Head(ARRAY_UNSIGNED, 1, -1, VArray(false, 2), 2);
    assert OVER_TABLES[0].rows[1] == OVER_WHICH;
    assert Lookup(c, Some(0), 1, ARRAY_UNSIGNED, -1) == Some(OVER_WHICH);
  }

  lemma OneHalf(cfg: Config, words: seq<word>)
    requires ConfigOk(cfg, 3, 0) && |words| == 3 && Ok(Smallest(cfg), HalfWay(words))
    ensures
      var after := if words[0] == 1 then [7, words[1], words[2]] else [7, words[1], 0];
      Step(Smallest(cfg), HalfWay(words), [7]) == Wait(HalfWay(after), 0)
  {
    var s: seq<byte> := [7];
    assert ReadVarint(s) == Got(7, 1);
    assert s[1..] == [] && ReadVarint(s[1..]) == More;
    assert ReadElems(s[1..], 1, false, -TWO63, TWO64 - 1) == Elems([], 0, Short);
    assert ReadElems(s, 2, false, -TWO63, TWO64 - 1) == Elems([7], 1, Short);
    assert Slots([7]) == [7];
    assert ResetWords(words, [(2, 0)]) == words[2 := 0];
  }

  /**
   An option of two elements over its which slot, held already, fed as header
   and first element and then as nothing: the empty feed resets the count.
   */
  lemma EmptyFeedShows(cfg: Config)
    requires ConfigOk(cfg, 3, 0) && cfg.arrayCap >= 2
    ensures
      var c := Smallest(cfg);
      var d := Live(Start(c, [1, 9, 5], []), []);
      && DecodeOk(c, d)
      && Feed(c, d, [0x0B, 2, 7]) == Live(HalfWay([7, 9, 5]), [7])
      && Feed(c, Feed(c, d, [0x0B, 2, 7]), []) == Live(HalfWay([7, 9, 0]), [7])
  {
    var c := Smallest(cfg);
    var m := Start(c, [1, 9, 5], []);
    var s: seq<byte> := [0x0B, 2, 7];
    hide Step, Ok, Smallest, Start, HalfWay;
    SmallestOk(cfg, [1, 9, 5]);
    SmallestOk(cfg, [7, 9, 5]);
    FirstHeader(cfg);
    OneHalf(cfg, [1, 9, 5]);
    OneHalf(cfg, [7, 9, 5]);
    assert [] + s == s && s[2..] == [7] && [7] + [] == [7];
    Unfold(c, m, s);
    Unfold(c, HalfWay([1, 9, 5]), [7]);
    Unfold(c, HalfWay([7, 9, 5]), [7]);
  }
}
