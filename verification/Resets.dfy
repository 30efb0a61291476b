/**
 What a reset leaves in one slot: the last value a list names for it, and the
 default payloads copied over that.
 */
module Resets {
  import opened Wire
  import opened Schema
  import opened Machine

  /** The value a list leaves in a slot, where it mentions the slot at all. */
  function Last<T>(rs: seq<(nat, T)>, a: nat): (r: Option<T>)
    ensures r.Some? <==> exists i | 0 <= i < |rs| :: rs[i].0 == a
    decreases |rs|
  {
    if rs == [] then None
    else
      var later := Last(rs[1..], a);
      assert forall i | 0 < i < |rs| :: rs[i] == rs[1..][i - 1];
      if later.Some? then later else if rs[0].0 == a then Some(rs[0].1) else None
  }

  /** Of two lists the one behind has the last word. */
  lemma {:induction false} LastOver<T>(xs: seq<(nat, T)>, ys: seq<(nat, T)>, a: nat)
    ensures Last(xs + ys, a) == if Last(ys, a).Some? then Last(ys, a) else Last(xs, a)
    decreases |xs|
  {
    if xs == [] {
      assert xs + ys == ys;
    } else {
      assert (xs + ys)[1..] == xs[1..] + ys;
      LastOver(xs[1..], ys, a);
    }
  }

  lemma {:induction false} LastIsOne<T>(rs: seq<(nat, T)>, a: nat)
    requires Last(rs, a).Some?
    ensures (a, Last(rs, a).value) in rs
    decreases |rs|
  {
    if Last(rs[1..], a).Some? {
      LastIsOne(rs[1..], a);
      assert (a, Last(rs, a).value) in rs[1..];
    } else {
      assert rs[0] == (a, Last(rs, a).value);
    }
  }

  /** Where every mention of a slot gives it the same value, that is the value left. */
  lemma {:induction false} LastIs<T>(rs: seq<(nat, T)>, a: nat, v: T)
    requires (a, v) in rs && forall x | x in rs && x.0 == a :: x.1 == v
    ensures Last(rs, a) == Some(v)
    decreases |rs|
  {
    if Last(rs[1..], a).Some? {
      var i :| 0 <= i < |rs[1..]| && rs[1..][i].0 == a;
      assert rs[1..][i] in rs;
      assert rs[1..][i] == (a, v);
      forall x | x in rs[1..]
        ensures x in rs
      {
      }
      LastIs(rs[1..], a, v);
    } else {
      assert forall j | 0 < j < |rs| :: rs[j] == rs[1..][j - 1];
    }
  }

  function Or<T>(o: Option<T>, t: T): T {
    if o.Some? then o.value else t
  }

  lemma {:induction false} WordAt(words: seq<word>, rs: seq<(nat, word)>, a: nat)
    requires a < |words| && forall i | 0 <= i < |rs| :: rs[i].0 < |words|
    ensures ResetWords(words, rs)[a] == Or(Last(rs, a), words[a])
    decreases |rs|
  {
    if rs != [] {
      WordAt(words[rs[0].0 := rs[0].1], rs[1..], a);
    }
  }

  lemma {:induction false} ObjectAt(objects: seq<Obj>, rs: seq<(nat, Obj)>, b: nat)
    requires b < |objects| && forall i | 0 <= i < |rs| :: rs[i].0 < |objects|
    ensures ResetObjects(objects, rs)[b] == Or(Last(rs, b), objects[b])
    decreases |rs|
  {
    if rs != [] {
      ObjectAt(objects[rs[0].0 := rs[0].1], rs[1..], b);
    }
  }

  /** The payloads a list copies into one slot, one over the other; a copy that does not fit is left out. */
  function Copied(rs: seq<(nat, seq<byte>)>, b: nat, o: Obj): Obj
    decreases |rs|
  {
    if rs == [] then o
    else Copied(rs[1..], b, if rs[0].0 == b && CopyInto(o, rs[0].1).Some? then CopyInto(o, rs[0].1).value else o)
  }

  lemma {:induction false} CopyAt(objects: seq<Obj>, rs: seq<(nat, seq<byte>)>, b: nat)
    requires b < |objects| && forall i | 0 <= i < |rs| :: rs[i].0 < |objects|
    ensures ResetInto(objects, rs).1 ==> ResetInto(objects, rs).0[b] == Copied(rs, b, objects[b])
    decreases |rs|
  {
    if rs != [] {
      var c := CopyInto(objects[rs[0].0], rs[0].1);
      if c.Some? {
        CopyAt(objects[rs[0].0 := c.value], rs[1..], b);
      }
    }
  }

  /** What an object slot holds behind a whole reset. */
  function Restarted(r: Reset, b: nat, o: Obj): Obj {
    Copied(r.into, b, Or(Last(r.objects, b), o))
  }

  /** Does the option take over, and so start from its defaults? */
  predicate TakesOver(m: M, row: Row)
    requires row.which < |m.words|
  {
    row.which >= 0 && m.words[row.which] != row.id
  }

  /** Selecting an option, slot by slot. */
  lemma SelectedWord(m: M, row: Row, a: nat)
    requires SlotsOk(row, |m.words|, |m.objects|) && a < |m.words|
    ensures
      var (n, fits) := Select(m, row);
      var kept := if TakesOver(m, row) then Or(Last(row.reset.words, a), m.words[a]) else m.words[a];
      fits ==> n.words[a] == if row.which == a then row.id else kept
  {
    hide ResetWords, ResetObjects, ResetInto, Last;
    WordAt(m.words, row.reset.words, a);
  }

  lemma SelectedObject(m: M, row: Row, b: nat)
    requires SlotsOk(row, |m.words|, |m.objects|) && b < |m.objects|
    ensures
      var (n, fits) := Select(m, row);
      fits ==> n.objects[b] == if TakesOver(m, row) then Restarted(row.reset, b, m.objects[b]) else m.objects[b]
  {
    hide ResetWords, ResetObjects, ResetInto, Last, Copied;
    ObjectAt(m.objects, row.reset.objects, b);
    CopyAt(ResetObjects(m.objects, row.reset.objects), row.reset.into, b);
  }

  lemma {:induction false} NotCopied(rs: seq<(nat, seq<byte>)>, b: nat, o: Obj)
    requires forall x | x in rs :: x.0 != b
    ensures Copied(rs, b, o) == o
    decreases |rs|
  {
    if rs != [] {
      assert rs[0] in rs && forall x | x in rs[1..] :: x in rs;
      NotCopied(rs[1..], b, o);
    }
  }

  /** Copies of one payload into a slot leave it at the front of the caller's buffer, where it fits. */
  lemma {:induction false} CopiedOnce(rs: seq<(nat, seq<byte>)>, b: nat, payload: seq<byte>, o: Obj)
    requires (b, payload) in rs && forall x | x in rs && x.0 == b :: x.1 == payload
    ensures Copied(rs, b, o) == if CopyInto(o, payload).Some? then CopyInto(o, payload).value else o
    decreases |rs|
  {
    var p := CopyInto(o, payload);
    var next := if rs[0].0 == b && p.Some? then p.value else o;
    assert rs[0] in rs && forall x | x in rs[1..] :: x in rs;
    CopiesTwice(o, payload);
    if (b, payload) in rs[1..] {
      CopiedOnce(rs[1..], b, payload, next);
    } else {
      assert forall i | 0 < i < |rs| :: rs[i] in rs[1..];
      NotCopied(rs[1..], b, next);
    }
  }

  lemma CopiesTwice(o: Obj, payload: seq<byte>)
    ensures
      var p := CopyInto(o, payload);
      p.Some? ==> CopyInto(p.value, payload) == p
  {
  }

  // ----- replaying a reset ------------------------------------------------------------

  /** One slot's object is another's, or a buffer of its length every byte of which is one of two others'. */
  predicate Mixed(o: Obj, a: Obj, b: Obj) {
    o == a ||
    (&& o.Buffer? && a.Buffer? && b.Buffer? && |o.bytes| == |a.bytes| == |b.bytes|
     && forall i | 0 <= i < |o.bytes| :: o.bytes[i] == a.bytes[i] || o.bytes[i] == b.bytes[i])
  }

  predicate AllMixed(os: seq<Obj>, xs: seq<Obj>, ys: seq<Obj>) {
    |os| == |xs| == |ys| && forall i | 0 <= i < |os| :: Mixed(os[i], xs[i], ys[i])
  }

  lemma MixedCopy(o: Obj, a: Obj, b: Obj, payload: seq<byte>)
    requires Mixed(o, a, b) && CopyInto(a, payload).Some?
    ensures CopyInto(o, payload).Some? && Mixed(CopyInto(o, payload).value, CopyInto(a, payload).value, b)
  {
  }

  /** Copies over a mixture of where they start from and where they end up end up there again. */
  lemma {:induction false} MixedAgain(os: seq<Obj>, xs: seq<Obj>, rs: seq<(nat, seq<byte>)>)
    requires forall i | 0 <= i < |rs| :: rs[i].0 < |xs|
    requires ResetInto(xs, rs).1 && AllMixed(os, xs, ResetInto(xs, rs).0)
    ensures ResetInto(os, rs) == (ResetInto(xs, rs).0, true)
    decreases |rs|
  {
    if rs == [] {
      forall i | 0 <= i < |os|
        ensures os[i] == xs[i]
      {
        assert os[i].Buffer? && xs[i].Buffer? ==> os[i].bytes == xs[i].bytes;
      }
      assert os == xs;
    } else {
      var b := rs[0].0;
      MixedCopy(os[b], xs[b], ResetInto(xs, rs).0[b], rs[0].1);
      MixedAgain(os[b := CopyInto(os[b], rs[0].1).value], xs[b := CopyInto(xs[b], rs[0].1).value], rs[1..]);
    }
  }

  /** What copies leave in a slot: the object itself, or a buffer of its length. */
  lemma {:induction false} CopiesKeep(xs: seq<Obj>, rs: seq<(nat, seq<byte>)>, b: nat)
    requires (forall i | 0 <= i < |rs| :: rs[i].0 < |xs|) && b < |xs| && ResetInto(xs, rs).1
    ensures
      var o := ResetInto(xs, rs).0[b];
      o == xs[b] || (o.Buffer? && xs[b].Buffer? && |o.bytes| == |xs[b].bytes|)
    decreases |rs|
  {
    if rs != [] {
      CopiesKeep(xs[rs[0].0 := CopyInto(xs[rs[0].0], rs[0].1).value], rs[1..], b);
    }
  }

  /** An object reset that has been replayed changes nothing when replayed again. */
  lemma ObjectsRest(objects: seq<Obj>, rs: seq<(nat, Obj)>, into: seq<(nat, seq<byte>)>)
    requires forall i | 0 <= i < |rs| :: rs[i].0 < |objects|
    requires forall i | 0 <= i < |into| :: into[i].0 < |objects|
    requires ResetInto(ResetObjects(objects, rs), into).1
    ensures
      var once := ResetInto(ResetObjects(objects, rs), into).0;
      ResetInto(ResetObjects(once, rs), into) == (once, true)
  {
    hide ResetObjects, ResetInto, Last;
    var xs := ResetObjects(objects, rs);
    var once := ResetInto(xs, into).0;
    var os := ResetObjects(once, rs);
    forall b | 0 <= b < |objects|
      ensures Mixed(os[b], xs[b], once[b])
    {
      ObjectAt(objects, rs, b);
      ObjectAt(once, rs, b);
      CopiesKeep(xs, into, b);
    }
    MixedAgain(os, xs, into);
  }
}
