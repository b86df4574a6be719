/**
 * `MultichoiceToggleButtonBehavior._do_press`
 * (instrumentino/libs2/togglebuttonmulti/__init__.py): a press in a group
 * selects the button while fewer than `max_selected` are selected and
 * deselects it while more than `min_selected` are.
 */
module MultichoiceToggle {
  import opened Wrappers
  import opened ToggleGroups

  /** The property defaults: `max_selected` 1 and `min_selected` 0. */
  const DEFAULT_MAX_SELECTED: nat := 1
  const DEFAULT_MIN_SELECTED: nat := 0

  /** The state a press leaves, given the number of buttons selected in the group. */
  function Pressed(state: ButtonState, selected: nat, maxSelected: nat, minSelected: nat): (r: ButtonState)
    ensures r != state <==>
      (state == Normal && selected < maxSelected) || (state == Down && selected > minSelected)
  {
    if state == Normal && selected < maxSelected then Down
    else if state == Down && selected > minSelected then Normal
    else state
  }

  /**
   * A press keeps the number of selected buttons of a group between
   * `min_selected` and `max_selected` when every button of the group is alive
   * and the pressed one is in it once.
   */
  lemma PressKeepsBounds(refs: seq<nat>, states: map<nat, ButtonState>, id: nat, maxSelected: nat, minSelected: nat)
    requires id in states && multiset(refs)[id] == 1
    requires minSelected <= DownCount(refs, states) <= maxSelected
    ensures var after := states[id := Pressed(states[id], DownCount(refs, states), maxSelected, minSelected)];
      minSelected <= DownCount(refs, after) <= maxSelected
  {
    CountAfterChange(refs, states, id, Pressed(states[id], DownCount(refs, states), maxSelected, minSelected));
  }

  /**
   * With the defaults a group is a set of radio buttons that may be emptied:
   * after a press at most one button of a live group is selected.
   */
  lemma DefaultsSelectAtMostOne(refs: seq<nat>, states: map<nat, ButtonState>, id: nat)
    requires id in states && multiset(refs)[id] == 1 && DownCount(refs, states) <= 1
    ensures var after := states[id := Pressed(states[id], DownCount(refs, states), DEFAULT_MAX_SELECTED, DEFAULT_MIN_SELECTED)];
      DownCount(refs, after) <= 1
  {
    PressKeepsBounds(refs, states, id, DEFAULT_MAX_SELECTED, DEFAULT_MIN_SELECTED);
  }

  /**
   * `_do_press`: nothing for a button without a (truthy) group; otherwise
   * the count, whose error propagates, decides the new state.
   */
  method DoPress(reg: Registry, id: nat, maxSelected: nat, minSelected: nat) returns (raised: Option<Raised>)
    requires id in reg.states && id in reg.group && maxSelected >= 1
    modifies reg
    ensures reg.group == old(reg.group) && reg.previous == old(reg.previous)
    ensures !Truthy(reg.group[id]) ==>
      raised == None && reg.states == old(reg.states) && reg.groups == old(reg.groups)
    ensures Truthy(reg.group[id]) && old(reg.Counted(id)).Err? ==>
      raised == Some(old(reg.Counted(id)).raised) && reg.states == old(reg.states) && reg.groups == old(reg.Flushed(id))
    ensures Truthy(reg.group[id]) && old(reg.Counted(id)).Ok? ==>
      raised == None && reg.groups == old(reg.groups)
      && reg.states == old(reg.states)[id := Pressed(old(reg.states)[id], old(reg.Counted(id)).value, maxSelected, minSelected)]
  {
    if !Truthy(reg.group[id]) {
      return None;
    }
    var c := reg.NumSelected(id);
    if c.Err? {
      return Some(c.raised);
    }
    reg.states := reg.states[id := Pressed(reg.states[id], c.value, maxSelected, minSelected)];
    raised := None;
  }
}
