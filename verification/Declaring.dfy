/**
 From a call that adds a row to what a decoder takes for it: the numbers the
 caller gave, with no word of the row in between.
 */
module Declaring {
  import opened Wire
  import opened Message
  import opened Schema
  import opened Bindings
  import opened Compiling
  import opened Bound
  import Utf8

  /** No declared side of the width is passed; an unsigned integer has no lower one. */
  predicate Allows(lo: Option<int>, hi: Option<int>, signed: bool, v: int) {
    (hi.Some? ==> v <= hi.value) && (signed && lo.Some? ==> lo.value <= v)
  }

  /**
   The row a frozen tree has for one call takes exactly the fields of its kind
   whose value the call allows: integers within the declared sides of the
   width, booleans of any value, strings and blobs up to the declared length
   where one is declared, arrays up to the declared count.  The other numbers
   of the call are where the value goes.
   */
  lemma AddedTakes(order: seq<Binding>, kind: Kind, id: nat, at: nat, cap: nat, countAt: Option<int>, child: Binding?,
      lo: Option<int>, hi: Option<int>, into: bool, default: Default, p: Prepared, e: Event)
    requires Admitted(kind, id, at, cap, countAt, lo, hi) && (child != null ==> child in order) && IsField(e)
    ensures
      var row := RowAt(order, RowOf(kind, id, at, cap, countAt, child, lo, hi, into, default), p);
      && row.kind == kind && row.id == id && row.at == at && row.into == into
      && row.which == p.which && row.reset == p.reset
      && (countAt.Some? ==> row.countAt == countAt.value) && (countAt.None? ==> row.countAt < 0)
      && (child != null ==> row.child < |order| && order[row.child] == child)
      && (Suits(row, e) <==>
            Carries(kind, e) &&
            match e
            case Int(_, signed, v) => kind.KBoolean? || Allows(lo, hi, signed, v)
            case Fixlen(_, st, payload) =>
              (st == STRING ==> Utf8.IsText(payload)) && (st == STRING || st == BLOB ==> cap == 0 || |payload| <= cap)
            case Ints(_, signed, vs) =>
              |vs| <= cap && (kind.KArrayBoolean? || forall i | 0 <= i < |vs| :: Allows(lo, hi, signed, vs[i]))
            case Floats(_, st, payload) => FloatCount(st, payload) <= cap)
  {
    hide Utf8.IsText, Utf8.Valid;
    var row := RowAt(order, RowOf(kind, id, at, cap, countAt, child, lo, hi, into, default), p);
    if e.Ints? && Carries(kind, e) && !kind.KArrayBoolean? {
      forall i | 0 <= i < |e.values|
        ensures InWidth(row, e.signed, e.values[i]) <==> Allows(lo, hi, e.signed, e.values[i])
      {
        WidthAllows(row, kind, lo, hi, e.signed, e.values[i]);
      }
    }
  }

  /** The width of a row is the one the call declared. */
  lemma WidthAllows(row: Row, kind: Kind, lo: Option<int>, hi: Option<int>, signed: bool, v: int)
    requires ValueOk(signed, v) && row.kind == kind && !kind.KBoolean? && !kind.KArrayBoolean?
    requires (kind.KSigned? || kind.KArraySigned?) == signed
    requires row.bounded == (lo.Some? || hi.Some?)
    requires row.lo == (if lo.Some? then lo.value else -TWO63) && row.hi == (if hi.Some? then hi.value else Top(kind))
    ensures InWidth(row, signed, v) <==> Allows(lo, hi, signed, v)
  {
  }

  /** Does the row put something in the `words` slot? */
  predicate Names(e: Entry, a: nat) {
    || e.countAt == a
    || (e.kind in {KUnsigned, KSigned, KBoolean, KFloat32, KFloat64} && a == e.at)
    || (e.kind in {KArrayUnsigned, KArraySigned, KArrayBoolean, KArrayFloat32, KArrayFloat64} &&
        e.at <= a < e.at + e.cap)
  }

  /**
   The sizes a row asks for are the least that hold every slot it names; only
   an array of capacity 0 asks for more than it names.
   */
  lemma NeedsAreLeast(e: Entry, n: nat)
    ensures e.WordsNeeded() <= n ==> forall a: nat | Names(e, a) :: a < n
    ensures (IsArray(e.kind) ==> e.cap > 0) && (forall a: nat | Names(e, a) :: a < n) ==> e.WordsNeeded() <= n
    ensures e.ObjectsNeeded() <= n <==> (e.kind in {KString, KBytes} ==> e.at < n)
  {
    if e.countAt >= 0 {
      assert Names(e, e.countAt);
    }
    if IsScalar(e.kind) {
      assert Names(e, e.at);
    }
    if IsArray(e.kind) && e.cap > 0 {
      assert Names(e, e.at + e.cap - 1);
    }
  }
}
