/**
  The sliding replay window of src/replay.rs: a 64-bit bitmap behind the highest accepted id.

  `Window` and `Check` are the window's value and one call of `check_and_set`; the class
  `ReplayWindow` performs that call in place.  `Admits` is the reference meaning over the set of
  all ids accepted so far, and `CheckRefines` connects the two.
 */
module Replay {
  import opened Bytes
  import opened Bits

  const WINDOW_SIZE: nat := 64

  /** `bitmap & (1 << diff) != 0` */
  predicate Bit(bitmap: u64, diff: nat) {
    And(bitmap, ShiftLeft(1, diff)) != 0
  }

  /** `bitmap | (1 << diff)` */
  function SetBit(bitmap: u64, diff: nat): u64 {
    Or64(bitmap, ShiftLeft(1, diff))
  }

  /** The bitmap after the highest id moves up by `shift`. */
  function Slide(bitmap: u64, shift: nat): u64 {
    if shift >= 64 then 1 else Or64(ShiftLeft(bitmap, shift), 1)
  }

  datatype Window = Window(highest: u32, bitmap: u64)

  const Fresh := Window(0, 0)

  /** One call of `check_and_set`: the window afterwards and the verdict. */
  function Check(w: Window, id: u32): (Window, bool) {
    if id == 0 then (w, false)
    else if id > w.highest then (Window(id, Slide(w.bitmap, id - w.highest)), true)
    else
      var diff := w.highest - id;
      if diff >= WINDOW_SIZE || Bit(w.bitmap, diff) then (w, false)
      else (Window(w.highest, SetBit(w.bitmap, diff)), true)
  }

  class ReplayWindow {
    var highest: u32
    var bitmap: u64

    constructor ()
      ensures Value() == Fresh
    {
      highest, bitmap := 0, 0;
    }

    function Value(): Window
      reads this
    {
      Window(highest, bitmap)
    }

    method CheckAndSet(id: u32) returns (ok: bool)
      modifies this
      ensures (Value(), ok) == Check(old(Value()), id)
    {
      if id == 0 {
        return false;
      }
      if id > highest {
        var shift := id - highest;
        bitmap := Slide(bitmap, shift);
        highest := id;
        return true;
      }
      var diff := highest - id;
      if diff >= WINDOW_SIZE {
        return false;
      }
      if Bit(bitmap, diff) {
        return false;
      }
      bitmap := SetBit(bitmap, diff);
      return true;
    }
  }

  // ---------------------------------------------------------------------------------------------
  // Bits of the bitmap
  // ---------------------------------------------------------------------------------------------

  lemma BitIsDigit(b: u64, n: nat)
    requires n < 64
    ensures Bit(b, n) == Digit(b, n)
  {
    var m: nat := ShiftLeft(1, n);
    MaskDigit(n, n);
    AndDigit(b, m, n);
    if Bit(b, n) {
      var k := SomeDigit(And(b, m));
      AndDigit(b, m, k);
      MaskOnlyDigit(n, k);
    } else {
      ZeroDigit(n);
    }
  }

  lemma SetBitBit(b: u64, d: nat, n: nat)
    requires d < 64 && n < 64
    ensures Bit(SetBit(b, d), n) == (n == d || Bit(b, n))
  {
    BitIsDigit(b, n);
    BitIsDigit(SetBit(b, d), n);
    OrDigit(b, ShiftLeft(1, d), n);
    MaskDigit(d, n);
  }

  lemma SlideBit(b: u64, shift: nat, n: nat)
    requires 0 < shift && n < 64
    ensures Bit(Slide(b, shift), n) == (n == 0 || (n >= shift && Bit(b, n - shift)))
  {
    BitIsDigit(Slide(b, shift), n);
    MaskDigit(0, n);
    if shift < 64 {
      OrDigit(ShiftLeft(b, shift), 1, n);
      ShiftDigit(b, shift, n);
    }
    if n >= shift {
      BitIsDigit(b, n - shift);
    }
  }

  // ---------------------------------------------------------------------------------------------
  // The reference meaning: the set of all accepted ids
  // ---------------------------------------------------------------------------------------------

  /** What the window should accept once exactly the ids in `seen` have been accepted. */
  ghost predicate Admits(seen: set<u32>, id: u32) {
    && id != 0
    && id !in seen
    && forall x | x in seen :: x < id + 64
  }

  /** Bit `n` of a window at `highest` says whether `highest - n` was accepted. */
  ghost predicate BitMeans(bitmap: u64, n: nat, highest: u32, seen: set<u32>) {
    Bit(bitmap, n) == (highest - n in seen)
  }

  ghost predicate Represents(w: Window, seen: set<u32>) {
    && 0 !in seen
    && (forall x | x in seen :: x <= w.highest)
    && (w.highest in seen || (seen == {} && w.highest == 0))
    && (forall n: nat | n < 64 :: BitMeans(w.bitmap, n, w.highest, seen))
  }

  lemma FreshRepresents()
    ensures Represents(Fresh, {})
  {
    forall n: nat | n < 64
      ensures BitMeans(0, n, 0, {})
    {
      BitIsDigit(0, n);
      ZeroDigit(n);
    }
  }

  lemma CheckRefines(w: Window, seen: set<u32>, id: u32)
    requires Represents(w, seen)
    ensures Check(w, id).1 == Admits(seen, id)
    ensures Represents(Check(w, id).0, if Admits(seen, id) then seen + {id} else seen)
  {
    if id > w.highest {
      SlideRepresents(w, seen, id);
    } else if id != 0 && w.highest - id < 64 && id !in seen {
      MarkRepresents(w, seen, id);
    } else {
      var diff := w.highest - id;
      if id != 0 && diff < 64 {
        BitMeansAt(w, seen, diff);
      }
    }
  }

  lemma BitMeansAt(w: Window, seen: set<u32>, n: nat)
    requires Represents(w, seen) && n < 64
    ensures BitMeans(w.bitmap, n, w.highest, seen)
  {}

  lemma SlideMeans(w: Window, seen: set<u32>, id: u32, n: nat)
    requires Represents(w, seen) && id > w.highest && n < 64
    ensures BitMeans(Slide(w.bitmap, id - w.highest), n, id, seen + {id})
  {
    var shift := id - w.highest;
    SlideBit(w.bitmap, shift, n);
    if n >= shift {
      BitMeansAt(w, seen, n - shift);
    }
  }

  lemma SlideRepresents(w: Window, seen: set<u32>, id: u32)
    requires Represents(w, seen) && id > w.highest
    ensures Represents(Window(id, Slide(w.bitmap, id - w.highest)), seen + {id})
  {
    var b, all := Slide(w.bitmap, id - w.highest), seen + {id};
    forall n: nat | n < 64
      ensures BitMeans(b, n, id, all)
    {
      SlideMeans(w, seen, id, n);
    }
  }

  lemma MarkMeans(w: Window, seen: set<u32>, id: u32, n: nat)
    requires Represents(w, seen) && 0 < id <= w.highest < id + 64 && n < 64
    ensures BitMeans(SetBit(w.bitmap, w.highest - id), n, w.highest, seen + {id})
  {
    SetBitBit(w.bitmap, w.highest - id, n);
    BitMeansAt(w, seen, n);
  }

  lemma MarkRepresents(w: Window, seen: set<u32>, id: u32)
    requires Represents(w, seen) && 0 < id <= w.highest < id + 64 && id !in seen
    ensures !Bit(w.bitmap, w.highest - id)
    ensures Represents(Window(w.highest, SetBit(w.bitmap, w.highest - id)), seen + {id})
  {
    BitMeansAt(w, seen, w.highest - id);
    var b, all := SetBit(w.bitmap, w.highest - id), seen + {id};
    forall n: nat | n < 64
      ensures BitMeans(b, n, w.highest, all)
    {
      MarkMeans(w, seen, id, n);
    }
  }

  // ---------------------------------------------------------------------------------------------
  // Whole runs
  // ---------------------------------------------------------------------------------------------

  /** The window after a fresh one has been offered `ids` in turn. */
  function After(ids: seq<u32>): Window {
    if ids == [] then Fresh else Check(After(ids[..|ids| - 1]), ids[|ids| - 1]).0
  }

  /** The answer a fresh window gives to the `i`th of `ids`. */
  predicate Accepts(ids: seq<u32>, i: nat)
    requires i < |ids|
  {
    Check(After(ids[..i]), ids[i]).1
  }

  /** The ids of a run that the window accepted. */
  function Accepted(ids: seq<u32>): set<u32> {
    if ids == [] then {}
    else
      var n := |ids| - 1;
      Accepted(ids[..n]) + if Accepts(ids, n) then {ids[n]} else {}
  }

  lemma {:induction false} RunRepresents(ids: seq<u32>)
    ensures Represents(After(ids), Accepted(ids))
  {
    if ids == [] {
      FreshRepresents();
    } else {
      var n := |ids| - 1;
      var w, seen := After(ids[..n]), Accepted(ids[..n]);
      RunRepresents(ids[..n]);
      CheckRefines(w, seen, ids[n]);
      assert Accepted(ids) == if Admits(seen, ids[n]) then seen + {ids[n]} else seen;
    }
  }

  /** Over every run the window gives exactly the reference verdict. */
  lemma RunRefines(ids: seq<u32>, i: nat)
    requires i < |ids|
    ensures Accepts(ids, i) == Admits(Accepted(ids[..i]), ids[i])
  {
    RunRepresents(ids[..i]);
    CheckRefines(After(ids[..i]), Accepted(ids[..i]), ids[i]);
  }

  lemma {:induction false} AcceptedWasOffered(ids: seq<u32>, x: u32)
    requires x in Accepted(ids)
    ensures x in ids
  {
    var n := |ids| - 1;
    if x in Accepted(ids[..n]) {
      AcceptedWasOffered(ids[..n], x);
    }
  }

  lemma {:induction false} AcceptedEarlier(ids: seq<u32>, i: nat, j: nat)
    requires i < j <= |ids|
    ensures Accepts(ids, i) ==> ids[i] in Accepted(ids[..j])
    decreases j
  {
    assert ids[..j][..j - 1] == ids[..j - 1];
    if i < j - 1 {
      AcceptedEarlier(ids, i, j - 1);
    }
  }

  /** No id is accepted twice. */
  lemma AtMostOnce(ids: seq<u32>, i: nat, j: nat)
    requires i < j < |ids|
    requires Accepts(ids, i) && Accepts(ids, j)
    ensures ids[i] != ids[j]
  {
    AcceptedEarlier(ids, i, j);
    RunRefines(ids, j);
  }

  /** Ids spanning less than the window, in any order and with repeats: each is accepted exactly
      when it is first offered. */
  lemma {:induction false} SpanAcceptsFirsts(ids: seq<u32>, i: nat)
    requires i < |ids|
    requires 0 !in ids
    requires forall x, y | x in ids && y in ids :: x < y + 64
    ensures Accepts(ids, i) <==> ids[i] !in ids[..i]
    decreases i, 0
  {
    RunRefines(ids, i);
    assert ids[i] in ids;
    forall x | x in Accepted(ids[..i])
      ensures x in ids && x in ids[..i]
    {
      AcceptedWasOffered(ids[..i], x);
    }
    if ids[i] in ids[..i] {
      var k: nat :| k < i && ids[..i][k] == ids[i];
      FirstOccurrenceAccepted(ids, i, k);
    }
  }

  lemma {:induction false} FirstOccurrenceAccepted(ids: seq<u32>, i: nat, k: nat)
    requires k < i < |ids|
    requires 0 !in ids
    requires forall x, y | x in ids && y in ids :: x < y + 64
    ensures ids[k] in Accepted(ids[..i])
    decreases k, 1
  {
    SpanAcceptsFirsts(ids, k);
    if Accepts(ids, k) {
      AcceptedEarlier(ids, k, i);
    } else {
      var k': nat :| k' < k && ids[..k][k'] == ids[k];
      FirstOccurrenceAccepted(ids, i, k');
    }
  }

  /** Strictly increasing nonzero ids are all accepted. */
  lemma IncreasingAllAccepted(ids: seq<u32>, i: nat)
    requires i < |ids|
    requires 0 !in ids
    requires forall a, b | 0 <= a < b < |ids| :: ids[a] < ids[b]
    ensures Accepts(ids, i)
  {
    RunRefines(ids, i);
    forall x | x in Accepted(ids[..i])
      ensures x < ids[i]
    {
      AcceptedWasOffered(ids[..i], x);
      var k: nat :| k < i && ids[..i][k] == x;
      assert ids[k] < ids[i];
    }
    assert ids[i] in ids;
  }
}
