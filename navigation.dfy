/** Cursor arithmetic shared by both generations of the panels: `add_index` and
    `sub_index` on a `usize` index over a list of `len` items. */
module Navigation {

  const UsizeMax: nat := 0xFFFF_FFFF_FFFF_FFFF

  /** Rust's `usize` on a 64-bit target. */
  type Usize = x: nat | x <= UsizeMax

  /** `usize::saturating_add` (an index is a `nat` here; it never exceeds
      `UsizeMax` in the source, where a `Vec` is shorter than that). */
  function SaturatingAdd(a: nat, b: Usize): nat
  {
    if a + b <= UsizeMax then a + b else UsizeMax
  }

  /** `usize::saturating_sub`. */
  function SaturatingSub(a: nat, b: Usize): nat
  {
    if b <= a then a - b else 0
  }

  /** `add_index(times)`: the candidate `index.saturating_add(times) % len` is
      taken only when it lies after `index`; otherwise the cursor goes to the last
      item. `len == 0` is a division by zero in the source. */
  function AdvanceIndex(index: nat, len: nat, times: Usize): (r: nat)
    requires len > 0
    ensures r < len
    ensures SaturatingAdd(index, times) % len > index ==> r == SaturatingAdd(index, times) % len
    ensures SaturatingAdd(index, times) % len <= index ==> r == len - 1
  {
    var candidate := SaturatingAdd(index, times) % len;
    if candidate > index then candidate else len - 1
  }

  /** `sub_index(times)`: `index.saturating_sub(times) % len`. */
  function RetreatIndex(index: nat, len: nat, times: Usize): (r: nat)
    requires len > 0
    ensures r < len
  {
    SaturatingSub(index, times) % len
  }

  lemma ModBelow(x: nat, len: nat)
    requires x < len
    ensures x % len == x
  {
  }

  lemma ModOneLap(x: nat, len: nat)
    requires 0 < len <= x < 2 * len
    ensures x % len == x - len
  {
    ModBelow(x - len, len);
    assert (x - len) % len == x % len;
  }

  /** A step that stays inside the list moves the cursor by exactly that step;
      a step of 0 jumps to the last item. */
  lemma {:induction false} AdvanceInside(index: nat, len: nat, times: Usize)
    requires index + times < len <= UsizeMax
    ensures times > 0 ==> AdvanceIndex(index, len, times) == index + times
    ensures times == 0 ==> AdvanceIndex(index, len, times) == len - 1
  {
    ModBelow(index + times, len);
  }

  /** Stepping past the end by at most one full lap stops on the last item
      (so with 5 items, from index 4 by 1 the cursor stays on 4). */
  lemma {:induction false} AdvancePastEnd(index: nat, len: nat, times: Usize)
    requires index < len <= index + times <= index + len
    requires len <= UsizeMax
    ensures AdvanceIndex(index, len, times) == len - 1
  {
    if index + times <= UsizeMax {
      ModOneLap(index + times, len);
    } else {
      ModOneLap(UsizeMax, len);
    }
  }

  /** For an index inside the list, retreating stops at the first item and
      never wraps round to the end. */
  lemma {:induction false} RetreatInside(index: nat, len: nat, times: Usize)
    requires index < len
    ensures RetreatIndex(index, len, times) == SaturatingSub(index, times)
    ensures RetreatIndex(index, len, times) <= index
    ensures times >= index ==> RetreatIndex(index, len, times) == 0
  {
    ModBelow(SaturatingSub(index, times), len);
  }

  /** Advancing more than a full lap past the end does not land on the last
      item: with 5 items, from index 1 by 7 the cursor goes to 3. */
  lemma AdvanceExamples()
    ensures AdvanceIndex(4, 5, 1) == 4
    ensures AdvanceIndex(0, 5, 0) == 4
    ensures AdvanceIndex(1, 5, 7) == 3
    ensures AdvanceIndex(1, 5, 1) == 2
  {
  }
}
