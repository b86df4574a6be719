/**
 * The button groups shared by the two multi-choice toggle behaviours
 * (instrumentino/libs2/togglebuttonmulti/__init__.py and
 * instrumentino/libs/garden/togglebuttonmulti/__init__.py, whose `on_group`
 * and `__get_num_selected` are the same code): a class-level dictionary from
 * group to the weak references of the buttons in it, and the buttons' states.
 * A weak reference is the number of its referent; it is dead once the
 * referent is no longer among the live widgets.
 */
module ToggleGroups {
  import opened Wrappers

  datatype ButtonState = Normal | Down

  /** Python truthiness of a group: `None` and `""` are false. */
  predicate Truthy(g: Option<string>)
  {
    g.Some? && g.value != ""
  }

  /** `list.remove(x)`: the list without the first occurrence of `x`. */
  function RemoveFirst(s: seq<nat>, x: nat): seq<nat>
  {
    if |s| == 0 then []
    else if s[0] == x then s[1..]
    else [s[0]] + RemoveFirst(s[1..], x)
  }

  /** Removing the first occurrence of `s[k]` removes position `k` when `s[k]` does not occur before. */
  lemma {:induction false} RemoveFirstAt(s: seq<nat>, k: nat)
    requires k < |s| && s[k] !in s[..k]
    ensures RemoveFirst(s, s[k]) == s[..k] + s[k + 1..]
    decreases k
  {
    if k > 0 {
      assert s[0] != s[k] by { assert s[0] == s[..k][0]; }
      assert s[1..][k - 1] == s[k];
      assert s[1..][..k - 1] == s[1..k];
      assert s[k] !in s[1..][..k - 1];
      RemoveFirstAt(s[1..], k - 1);
      assert s[1..][k..] == s[k + 1..];
      assert s[..k] == [s[0]] + s[1..k];
    }
  }

  /** `list.remove` takes out exactly one occurrence of a value the list holds. */
  lemma {:induction false} RemoveFirstMultiset(s: seq<nat>, x: nat)
    requires x in s
    ensures multiset(RemoveFirst(s, x)) == multiset(s) - multiset{x}
  {
    if s[0] != x {
      RemoveFirstMultiset(s[1..], x);
      assert s == [s[0]] + s[1..];
    } else {
      assert s == [x] + s[1..];
    }
  }

  /** The position in `order` of the first group whose list holds `wk`, `|order|` when none does. */
  function FirstHolding(order: seq<Option<string>>, groups: map<Option<string>, seq<nat>>, wk: nat): (k: nat)
    requires forall g :: g in order ==> g in groups
    ensures k <= |order|
    ensures k < |order| ==> wk in groups[order[k]]
    ensures forall j :: 0 <= j < k ==> wk !in groups[order[j]]
  {
    if |order| == 0 then 0
    else if wk in groups[order[0]] then 0
    else FirstHolding(order[1..], groups, wk) + 1
  }

  /** `FirstHolding` is the first position whose list holds `wk`. */
  lemma {:induction false} FirstHoldingAt(order: seq<Option<string>>, groups: map<Option<string>, seq<nat>>, wk: nat, i: nat)
    requires forall g :: g in order ==> g in groups
    requires i <= |order| && (i < |order| ==> wk in groups[order[i]])
    requires forall j :: 0 <= j < i ==> wk !in groups[order[j]]
    ensures FirstHolding(order, groups, wk) == i
    decreases i
  {
    if i > 0 {
      assert wk !in groups[order[0]];
      if i < |order| {
        assert order[1..][i - 1] == order[i];
      }
      forall j | 0 <= j < i - 1 ensures wk !in groups[order[1..][j]] {
        assert order[1..][j] == order[j + 1];
      }
      FirstHoldingAt(order[1..], groups, wk, i - 1);
    }
  }

  /** The number of references in `refs` whose referent is alive and down. */
  function DownCount(refs: seq<nat>, states: map<nat, ButtonState>): nat
  {
    if |refs| == 0 then 0
    else
      var last := refs[|refs| - 1];
      DownCount(refs[..|refs| - 1], states) + (if last in states && states[last] == Down then 1 else 0)
  }

  /** The position of the first dead reference, `|refs|` when every referent is alive. */
  function FirstDead(refs: seq<nat>, states: map<nat, ButtonState>): (k: nat)
    ensures k <= |refs|
    ensures k < |refs| ==> refs[k] !in states
    ensures forall j :: 0 <= j < k ==> refs[j] in states
  {
    if |refs| == 0 then 0
    else if refs[0] !in states then 0
    else FirstDead(refs[1..], states) + 1
  }

  /**
   * What counting a group's selected buttons yields: the first dead
   * reference ends the count with AttributeError (the code goes on to read
   * `.state` of the `None` it got), otherwise the number of buttons down.
   */
  function Selected(refs: seq<nat>, states: map<nat, ButtonState>): (r: Result<nat>)
    ensures r.Err? <==> exists j :: 0 <= j < |refs| && refs[j] !in states
    ensures r.Err? ==> r.raised == AttributeError
  {
    if FirstDead(refs, states) < |refs| then Err(AttributeError) else Ok(DownCount(refs, states))
  }

  /** The references whose referent is alive, in order. */
  function Alive(refs: seq<nat>, states: map<nat, ButtonState>): (r: seq<nat>)
    ensures forall j :: 0 <= j < |r| ==> r[j] in states
  {
    if |refs| == 0 then []
    else
      var last := refs[|refs| - 1];
      Alive(refs[..|refs| - 1], states) + (if last in states then [last] else [])
  }

  /** `DownCount` skips dead references, so flushing them keeps the count. */
  lemma {:induction false} AliveKeepsCount(refs: seq<nat>, states: map<nat, ButtonState>)
    ensures DownCount(Alive(refs, states), states) == DownCount(refs, states)
  {
    if |refs| > 0 {
      var front := refs[..|refs| - 1];
      var last := refs[|refs| - 1];
      AliveKeepsCount(front, states);
      assert DownCount(refs, states) == DownCount(front, states) + (if last in states && states[last] == Down then 1 else 0);
      if last in states {
        var a := Alive(front, states) + [last];
        assert Alive(refs, states) == a;
        assert a[..|a| - 1] == Alive(front, states);
      } else {
        assert Alive(refs, states) == Alive(front, states);
      }
    }
  }

  /**
   * The count the code evidently intends, skipping a dead reference instead
   * of reading `.state` of `None`: the buttons down among the live ones. It
   * is what `Selected` gives once the dead references are flushed.
   */
  function SelectedSkipping(refs: seq<nat>, states: map<nat, ButtonState>): (r: nat)
  {
    DownCount(refs, states)
  }

  lemma SkippingCountsLive(refs: seq<nat>, states: map<nat, ButtonState>)
    ensures Selected(Alive(refs, states), states) == Ok(SelectedSkipping(refs, states))
  {
    AliveKeepsCount(refs, states);
  }

  /** Counting over a list with a dead reference raises, whatever the other buttons are. */
  lemma DeadReferenceRaises(refs: seq<nat>, states: map<nat, ButtonState>, k: nat)
    requires k < |refs| && refs[k] !in states
    ensures Selected(refs, states) == Err(AttributeError)
  {
  }

  /** Changing the state of a button that occurs once in `refs` changes the count by one at most. */
  lemma {:induction false} CountAfterChange(refs: seq<nat>, states: map<nat, ButtonState>, id: nat, s: ButtonState)
    requires id in states
    ensures var occ := multiset(refs)[id];
      DownCount(refs, states[id := s]) + (if states[id] == Down then occ else 0)
      == DownCount(refs, states) + (if s == Down then occ else 0)
  {
    if |refs| > 0 {
      var front := refs[..|refs| - 1];
      assert refs == front + [refs[|refs| - 1]];
      assert multiset(refs) == multiset(front) + multiset{refs[|refs| - 1]};
      CountAfterChange(front, states, id, s);
    }
  }

  /**
   * The registry of one toggle class: the live widgets' states, each
   * widget's `group` and `_previous_group`, and the class-level `__groups`.
   */
  class Registry {
    var states: map<nat, ButtonState>
    var group: map<nat, Option<string>>
    var previous: map<nat, Option<string>>
    var groups: map<Option<string>, seq<nat>>

    /** Every previous group a widget registered in has its list. */
    ghost predicate Valid()
      reads this
    {
      (forall id :: id in states ==> id in group && id in previous)
      && (forall id :: id in previous && previous[id].Some? ==> previous[id] in groups)
    }

    constructor ()
      ensures states == map[] && group == map[] && previous == map[] && groups == map[]
      ensures Valid()
    {
      states := map[];
      group := map[];
      previous := map[];
      groups := map[];
    }

    /** A new button (`__init__`): no group yet, not pressed. */
    method AddWidget(id: nat)
      requires Valid() && id !in group && id !in previous
      modifies this
      ensures states == old(states)[id := Normal]
      ensures group == old(group)[id := None] && previous == old(previous)[id := None]
      ensures groups == old(groups)
      ensures Valid()
    {
      states := states[id := Normal];
      group := group[id := None];
      previous := previous[id := None];
    }

    /** The widget is collected; its references stay in the lists until flushed. */
    method Collect(id: nat)
      requires Valid()
      modifies this`states
      ensures states == map k | k in old(states) && k != id :: old(states)[k]
      ensures Valid()
    {
      states := map k | k in states && k != id :: states[k];
    }

    /**
     * `_clear_groups`, the weak reference's callback once its widget is
     * collected: the groups are visited in the dictionary's iteration order
     * `order`, and the first list holding `wk` loses one occurrence of it.
     */
    method ClearGroups(wk: nat, order: seq<Option<string>>)
      requires Valid()
      requires forall g :: g in order <==> g in groups
      modifies this`groups
      ensures var k := FirstHolding(order, old(groups), wk);
        groups == (if k < |order| then old(groups)[order[k] := RemoveFirst(old(groups)[order[k]], wk)] else old(groups))
      ensures forall g :: g in old(groups) ==>
        multiset(groups[g]) == multiset(old(groups)[g]) || multiset(groups[g]) == multiset(old(groups)[g]) - multiset{wk}
      ensures Valid()
    {
      var i := 0;
      while i < |order|
        invariant 0 <= i <= |order|
        invariant forall j :: 0 <= j < i ==> wk !in groups[order[j]]
        invariant groups == old(groups)
      {
        var g := order[i];
        if wk in groups[g] {
          assert FirstHolding(order, groups, wk) == i by { FirstHoldingAt(order, groups, wk, i); }
          RemoveFirstMultiset(groups[g], wk);
          groups := groups[g := RemoveFirst(groups[g], wk)];
          return;
        }
        i := i + 1;
      }
      assert FirstHolding(order, groups, wk) == |order| by { FirstHoldingAt(order, groups, wk, i); }
    }

    /**
     * `on_group`, run when the widget's `group` becomes `g`: the widget's
     * first reference leaves its previous group when that one is truthy, and
     * a new reference is appended to the list of `g`, created when missing.
     */
    method OnGroup(id: nat, g: Option<string>)
      requires Valid() && id in states
      modifies this`group, this`previous, this`groups
      ensures group == old(group)[id := g] && previous == old(previous)[id := g]
      ensures var left := if Truthy(old(previous)[id])
          then old(groups)[old(previous)[id] := RemoveFirst(old(groups)[old(previous)[id]], id)]
          else old(groups);
        groups == left[g := (if g in left then left[g] else []) + [id]]
      ensures g in groups && |groups[g]| > 0 && groups[g][|groups[g]| - 1] == id
      ensures Valid()
    {
      var p := previous[id];
      if Truthy(p) {
        groups := groups[p := RemoveFirst(groups[p], id)];
      }
      group := group[id := g];
      previous := previous[id := g];
      if g !in groups {
        groups := groups[g := []];
      }
      groups := groups[g := groups[g] + [id]];
    }

    /**
     * What `__get_num_selected` returns for a live widget: without a group its
     * own state, KeyError for a group never registered, otherwise the count
     * over the group's references.
     */
    function Counted(id: nat): (r: Result<nat>)
      requires id in states && id in group
      reads this
      ensures group[id].None? ==> r.Ok? && r.value <= 1 && (r.value == 1 <==> states[id] == Down)
      ensures group[id].Some? && group[id] !in groups ==> r == Err(KeyError)
    {
      if group[id].None? then Ok(if states[id] == Down then 1 else 0)
      else if group[id] !in groups then Err(KeyError)
      else Selected(groups[group[id]], states)
    }

    /** The groups once `__get_num_selected` has run: the first dead reference of the widget's group is gone. */
    function Flushed(id: nat): map<Option<string>, seq<nat>>
      requires id in states && id in group
      reads this
    {
      if group[id].Some? && group[id] in groups then
        var refs := groups[group[id]];
        var k := FirstDead(refs, states);
        if k < |refs| then groups[group[id] := refs[..k] + refs[k + 1..]] else groups
      else groups
    }

    /**
     * `__get_num_selected` for a live widget: without a group its own state
     * counts; otherwise the references of its group are counted in order and
     * the first dead one is removed from the list before AttributeError.
     */
    method NumSelected(id: nat) returns (r: Result<nat>)
      requires id in states && id in group
      modifies this`groups
      ensures r == old(Counted(id))
      ensures group[id].Some? && group[id] in old(groups) ==>
        var refs := old(groups)[group[id]];
        var k := FirstDead(refs, states);
        groups == (if k < |refs| then old(groups)[group[id] := refs[..k] + refs[k + 1..]] else old(groups))
      ensures (group[id].None? || group[id] !in old(groups)) ==> groups == old(groups)
      ensures groups == old(Flushed(id))
      ensures r.Ok? ==> groups == old(groups)
    {
      var g := group[id];
      if g.None? {
        return Ok(if states[id] == Down then 1 else 0);
      }
      if g !in groups {
        return Err(KeyError);
      }
      var refs := groups[g];
      var i := 0;
      var num := 0;
      while i < |refs|
        invariant 0 <= i <= |refs|
        invariant forall j :: 0 <= j < i ==> refs[j] in states
        invariant num == DownCount(refs[..i], states)
        invariant groups == old(groups)
      {
        var w := refs[i];
        if w !in states {
          assert FirstDead(refs, states) == i;
          assert w !in refs[..i];
          RemoveFirstAt(refs, i);
          groups := groups[g := RemoveFirst(groups[g], w)];
          return Err(AttributeError);
        }
        assert refs[..i + 1][..i] == refs[..i];
        if states[w] == Down {
          num := num + 1;
        }
        i := i + 1;
      }
      assert refs[..i] == refs;
      r := Ok(num);
    }

    /** `get_widgets`: the live widgets of a group, in order; none for an unknown group. */
    function Widgets(g: Option<string>): (r: seq<nat>)
      reads this
      ensures g !in groups ==> r == []
      ensures forall j :: 0 <= j < |r| ==> r[j] in states
    {
      if g in groups then Alive(groups[g], states) else []
    }
  }
}
