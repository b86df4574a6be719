/**
 * `ToggleButtonMultiBehavior._do_press`
 * (instrumentino/libs/garden/togglebuttonmulti/__init__.py): a press selects
 * the button while fewer than `max_selected` are selected and otherwise
 * deselects it, except that with `allow_no_selection` off the last selected
 * button of a group stays selected.
 */
module ToggleButtonMulti {
  import opened Wrappers
  import opened ToggleGroups

  /** The property defaults: `max_selected` 1 and `allow_no_selection` on. */
  const DEFAULT_MAX_SELECTED: nat := 1
  const DEFAULT_ALLOW_NO_SELECTION: bool := true

  /** The state a press leaves, given the number of buttons selected. */
  function Pressed(state: ButtonState, selected: nat, maxSelected: nat, allowNoSelection: bool, grouped: bool): (r: ButtonState)
    ensures (!allowNoSelection && grouped && state == Down && selected <= 1) ==> r == state
    ensures state == Normal ==> (r == Down <==> selected < maxSelected)
    ensures state == Down && (allowNoSelection || !grouped || selected > 1) ==> r == Normal
  {
    if !allowNoSelection && grouped && state == Down && selected <= 1 then state
    else if state == Normal then (if selected < maxSelected then Down else Normal)
    else Normal
  }

  /**
   * With `allow_no_selection` off, a press in a group whose buttons are all
   * alive, the pressed one once, keeps at least one button selected and no
   * more than `max_selected`.
   */
  lemma PressKeepsSelection(refs: seq<nat>, states: map<nat, ButtonState>, id: nat, maxSelected: nat)
    requires id in states && multiset(refs)[id] == 1
    requires 1 <= DownCount(refs, states) <= maxSelected
    ensures var after := states[id := Pressed(states[id], DownCount(refs, states), maxSelected, false, true)];
      1 <= DownCount(refs, after) <= maxSelected
  {
    CountAfterChange(refs, states, id, Pressed(states[id], DownCount(refs, states), maxSelected, false, true));
  }

  /** With selection allowed to empty, a press toggles the button unless the group is full. */
  lemma PressToggles(state: ButtonState, selected: nat, maxSelected: nat, grouped: bool)
    ensures Pressed(state, selected, maxSelected, true, grouped) ==
      (if state == Down then Normal else if selected < maxSelected then Down else Normal)
  {
  }

  /**
   * With the defaults a group is a set of radio buttons that may be emptied:
   * after a press at most one button of a live group is selected.
   */
  lemma DefaultsSelectAtMostOne(refs: seq<nat>, states: map<nat, ButtonState>, id: nat)
    requires id in states && multiset(refs)[id] == 1 && DownCount(refs, states) <= 1
    ensures var after := states[id := Pressed(states[id], DownCount(refs, states), DEFAULT_MAX_SELECTED,
                                              DEFAULT_ALLOW_NO_SELECTION, true)];
      DownCount(refs, after) <= 1
  {
    var s := Pressed(states[id], DownCount(refs, states), DEFAULT_MAX_SELECTED, DEFAULT_ALLOW_NO_SELECTION, true);
    CountAfterChange(refs, states, id, s);
  }

  /** `_do_press`: the count, whose error propagates, then the state the press leaves. */
  method DoPress(reg: Registry, id: nat, maxSelected: nat, allowNoSelection: bool) returns (raised: Option<Raised>)
    requires id in reg.states && id in reg.group && maxSelected >= 1
    modifies reg
    ensures reg.group == old(reg.group) && reg.previous == old(reg.previous)
    ensures old(reg.Counted(id)).Err? ==>
      raised == Some(old(reg.Counted(id)).raised) && reg.states == old(reg.states) && reg.groups == old(reg.Flushed(id))
    ensures old(reg.Counted(id)).Ok? ==>
      raised == None && reg.groups == old(reg.groups)
      && reg.states == old(reg.states)[id := Pressed(old(reg.states)[id], old(reg.Counted(id)).value, maxSelected,
                                                     allowNoSelection, Truthy(reg.group[id]))]
  {
    var c := reg.NumSelected(id);
    if c.Err? {
      return Some(c.raised);
    }
    reg.states := reg.states[id := Pressed(reg.states[id], c.value, maxSelected, allowNoSelection, Truthy(reg.group[id]))];
    raised := None;
  }
}
