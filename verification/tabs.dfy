/** The tab strip of the form: the tabs register their values in the order they first render, a click makes
    a tab active, and the arrow, Home and End keys move the active tab along the registered order, wrapping
    at both ends. Exactly the active tab is in the keyboard order and its panel alone is shown. */
module Tabs {

  /** No value registered twice. */
  predicate Distinct(ids: seq<string>)
  {
    forall i, j :: 0 <= i < j < |ids| ==> ids[i] != ids[j]
  }

  /** `ids.indexOf(x)`: the first position of `x`, or -1. */
  function Position(ids: seq<string>, x: string): (r: int)
    ensures -1 <= r < |ids|
    ensures r >= 0 ==> ids[r] == x && x !in ids[..r]
    ensures r == -1 <==> x !in ids
  {
    if ids == [] then -1
    else if ids[0] == x then 0
    else var k := Position(ids[1..], x); if k < 0 then -1 else k + 1
  }

  /** In a list without repeats, the position of the value at `i` is `i`. */
  lemma PositionOfDistinct(ids: seq<string>, i: int)
    requires Distinct(ids) && 0 <= i < |ids|
    ensures Position(ids, ids[i]) == i
  {
    assert ids[i] in ids;
  }

  /** The position the key moves to from `curr` among `n` tabs; any other key stays. */
  function NextIndex(curr: int, n: int, key: string): (r: int)
    requires 0 <= curr < n
    ensures 0 <= r < n
    ensures key == "Home" ==> r == 0
    ensures key == "End" ==> r == n - 1
    ensures key != "ArrowRight" && key != "ArrowLeft" && key != "Home" && key != "End" ==> r == curr
  {
    if key == "ArrowRight" then (curr + 1) % n
    else if key == "ArrowLeft" then (curr - 1 + n) % n
    else if key == "Home" then 0
    else if key == "End" then n - 1
    else curr
  }

  /** The right arrow steps one tab on, from the last tab to the first. */
  lemma RightStep(curr: int, n: int)
    requires 0 <= curr < n
    ensures NextIndex(curr, n, "ArrowRight") == if curr == n - 1 then 0 else curr + 1
  {
    if curr == n - 1 {
      assert (curr + 1) % n == n % n == 0;
    } else {
      assert (curr + 1) % n == curr + 1;
    }
  }

  /** The left arrow steps one tab back, from the first tab to the last. */
  lemma LeftStep(curr: int, n: int)
    requires 0 <= curr < n
    ensures NextIndex(curr, n, "ArrowLeft") == if curr == 0 then n - 1 else curr - 1
  {
    if curr == 0 {
      assert (curr - 1 + n) % n == n - 1;
    } else {
      assert (curr - 1 + n) % n == (curr - 1 + n) - n;
    }
  }

  /** Right then left, or left then right, comes back to the starting tab. */
  lemma ArrowsUndo(curr: int, n: int)
    requires 0 <= curr < n
    ensures NextIndex(NextIndex(curr, n, "ArrowRight"), n, "ArrowLeft") == curr
    ensures NextIndex(NextIndex(curr, n, "ArrowLeft"), n, "ArrowRight") == curr
  {
    RightStep(curr, n);
    LeftStep(curr, n);
    LeftStep(NextIndex(curr, n, "ArrowRight"), n);
    RightStep(NextIndex(curr, n, "ArrowLeft"), n);
  }

  /** With a single tab every key stays where it is, so nothing is changed or consumed. */
  lemma SingleTab(key: string)
    ensures NextIndex(0, 1, key) == 0
  {
  }

  /** Pressing the right arrow `k` times. */
  function RightTimes(curr: int, n: int, k: nat): (r: int)
    requires 0 <= curr < n
    ensures 0 <= r < n
  {
    if k == 0 then curr else NextIndex(RightTimes(curr, n, k - 1), n, "ArrowRight")
  }

  /** Up to one round, `k` presses move `k` places, past the last tab back to the first. */
  lemma {:induction false} RightTimesMoves(curr: int, n: int, k: nat)
    requires 0 <= curr < n && k <= n
    ensures RightTimes(curr, n, k) == if curr + k < n then curr + k else curr + k - n
  {
    if k > 0 {
      RightTimesMoves(curr, n, k - 1);
      RightStep(RightTimes(curr, n, k - 1), n);
    }
  }

  /** The number of presses of the right arrow from `curr` to `j`. */
  function StepsTo(curr: int, n: int, j: int): nat
    requires 0 <= curr < n && 0 <= j < n
  {
    if j >= curr then j - curr else j - curr + n
  }

  /** A round of presses of the right arrow, as many as there are tabs, comes back to the start, and every
      tab is reached within it. */
  lemma FullCircle(curr: int, n: int)
    requires 0 <= curr < n
    ensures RightTimes(curr, n, n) == curr
    ensures forall j :: 0 <= j < n ==> StepsTo(curr, n, j) < n && RightTimes(curr, n, StepsTo(curr, n, j)) == j
  {
    RightTimesMoves(curr, n, n);
    forall j | 0 <= j < n
      ensures StepsTo(curr, n, j) < n && RightTimes(curr, n, StepsTo(curr, n, j)) == j
    {
      RightTimesMoves(curr, n, StepsTo(curr, n, j));
    }
  }

  /** The active value after the key: unchanged when the active value was never registered. */
  function AfterKey(ids: seq<string>, active: string, key: string): (r: string)
    ensures active !in ids ==> r == active
    ensures active in ids ==> r in ids
  {
    var curr := Position(ids, active);
    if curr < 0 then active else ids[NextIndex(curr, |ids|, key)]
  }

  // ---- what each tab and panel shows ----

  /** `aria-selected`. */
  predicate Selected(active: string, value: string)
  {
    active == value
  }

  /** `tabIndex`: only the selected tab is reached by the Tab key. */
  function TabIndex(active: string, value: string): (r: int)
    ensures r == 0 <==> Selected(active, value)
    ensures r == 0 || r == -1
  {
    if Selected(active, value) then 0 else -1
  }

  /** `hidden` on a panel. */
  predicate PanelHidden(active: string, value: string)
  {
    active != value
  }

  /** With distinct values and the active one registered, exactly one tab is in the keyboard order and one
      panel is shown, the active one's. */
  lemma OneFocusable(ids: seq<string>, active: string)
    requires Distinct(ids) && active in ids
    ensures var p := Position(ids, active);
            0 <= p < |ids|
            && forall i :: 0 <= i < |ids| ==> (TabIndex(active, ids[i]) == 0 <==> i == p)
                                                && (!PanelHidden(active, ids[i]) <==> i == p)
  {
  }

  /** `<Tabs defaultValue>`: the active value and the registered values, which later renders extend. */
  class TabSet {
    var active: string
    var ids: seq<string>

    predicate Valid()
      reads this
    {
      Distinct(ids)
    }

    constructor (defaultValue: string)
      ensures active == defaultValue && ids == [] && Valid()
    {
      active, ids := defaultValue, [];
    }

    /** `register(id)`: appends the value unless it is already there. */
    method Register(id: string)
      requires Valid()
      modifies this
      ensures Valid() && active == old(active)
      ensures ids == if id in old(ids) then old(ids) else old(ids) + [id]
      ensures id in ids
    {
      if id !in ids {
        ids := ids + [id];
      }
    }

    /** A click on a tab makes its value active. */
    method Click(value: string)
      modifies this
      ensures active == value && ids == old(ids)
    {
      active := value;
    }

    /** `onKeyDown`: returns whether the key was consumed, which is when it moved to another position. */
    method KeyDown(key: string) returns (prevented: bool)
      requires Valid()
      modifies this
      ensures Valid() && ids == old(ids)
      ensures active == AfterKey(old(ids), old(active), key)
      ensures prevented <==> active != old(active)
    {
      var curr := Position(ids, active);
      prevented := false;
      if curr >= 0 {
        var next := NextIndex(curr, |ids|, key);
        if next != curr {
          PositionOfDistinct(ids, next);
          active := ids[next];
          prevented := true;
        }
      }
    }
  }
}
