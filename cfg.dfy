/**
 * The controller registry of the wx front end (instrumentino/instrumentino/cfg.py):
 * the module-global list of controller instances, one added per needed
 * class, and the searches over it.
 */
module Cfg {
  import opened Wrappers

  /**
   * A controller instance: its class, the classes it derives from, and its
   * `online` flag.
   */
  datatype Controller = Controller(cls: string, bases: set<string>, online: bool)

  /** `isinstance(c, cls)`. */
  predicate IsInstance(c: Controller, cls: string)
  {
    c.cls == cls || cls in c.bases
  }

  /** The position of the first instance of `cls`, or `|cs|`. */
  function FirstInstance(cs: seq<Controller>, cls: string): (k: nat)
    ensures k <= |cs|
    ensures k < |cs| ==> IsInstance(cs[k], cls)
    ensures forall j :: 0 <= j < k ==> !IsInstance(cs[j], cls)
  {
    if |cs| == 0 then 0
    else if IsInstance(cs[0], cls) then 0
    else FirstInstance(cs[1..], cls) + 1
  }

  /** The list after `AddControllerIfNeeded(cls)`: unchanged when an instance is there, else one new one, offline. */
  function WithController(cs: seq<Controller>, cls: string, bases: set<string>): seq<Controller>
  {
    if FirstInstance(cs, cls) < |cs| then cs else cs + [Controller(cls, bases, false)]
  }

  /** Adding the same class twice adds it once; afterwards an instance is there. */
  lemma AddIdempotent(cs: seq<Controller>, cls: string, bases: set<string>)
    ensures var once := WithController(cs, cls, bases);
      WithController(once, cls, bases) == once
      && FirstInstance(once, cls) < |once|
      && |once| <= |cs| + 1
  {
    var once := WithController(cs, cls, bases);
    if FirstInstance(cs, cls) == |cs| {
      assert IsInstance(once[|cs|], cls);
    }
  }

  /** `AllOnline`: false for no controllers, otherwise whether all are online. */
  function AllOnline(cs: seq<Controller>): (r: bool)
    ensures r <==> |cs| > 0 && forall i :: 0 <= i < |cs| ==> cs[i].online
  {
    AllListedOnline(cs) && |cs| > 0
  }

  /** The loop of `AllOnline`: the first controller that is offline decides. */
  function AllListedOnline(cs: seq<Controller>): (r: bool)
    ensures r <==> forall i :: 0 <= i < |cs| ==> cs[i].online
  {
    if |cs| == 0 then true
    else if !cs[0].online then false
    else AllListedOnline(cs[1..])
  }

  /** `GetController`: the first instance of the class, `None` when there is none. */
  function GetController(cs: seq<Controller>, cls: string): (r: Option<Controller>)
    ensures r.Some? <==> exists i :: 0 <= i < |cs| && IsInstance(cs[i], cls)
    ensures r.Some? ==> r.value == cs[FirstInstance(cs, cls)]
  {
    if FirstInstance(cs, cls) < |cs| then Some(cs[FirstInstance(cs, cls)]) else None
  }

  /** `IsCompOnline`: the `online` flag of the first instance of the component's class, false without one. */
  function IsCompOnline(cs: seq<Controller>, cls: string): (r: bool)
  {
    if |cs| == 0 then false
    else if IsInstance(cs[0], cls) then cs[0].online
    else IsCompOnline(cs[1..], cls)
  }

  /** A component is online exactly when it has a controller and that controller is online. */
  lemma {:induction false} CompOnlineIsControllerOnline(cs: seq<Controller>, cls: string)
    ensures IsCompOnline(cs, cls) <==> GetController(cs, cls).Some? && GetController(cs, cls).value.online
  {
    if |cs| > 0 && !IsInstance(cs[0], cls) {
      CompOnlineIsControllerOnline(cs[1..], cls);
      assert FirstInstance(cs, cls) == FirstInstance(cs[1..], cls) + 1;
    }
  }

  /** When all controllers are online, so is every component that has one. */
  lemma AllOnlineCoversComps(cs: seq<Controller>, cls: string)
    requires AllOnline(cs) && GetController(cs, cls).Some?
    ensures IsCompOnline(cs, cls)
  {
    CompOnlineIsControllerOnline(cs, cls);
  }

  /** The module-global `controllers` list, and the controllers `Close` has reached, in order. */
  class Registry {
    var controllers: seq<Controller>
    var closed: seq<Controller>

    constructor ()
      ensures controllers == [] && closed == []
    {
      controllers := [];
      closed := [];
    }

    /** `AddControllerIfNeeded`: the search for an instance, and the append when none is found. */
    method AddControllerIfNeeded(cls: string, bases: set<string>)
      modifies this`controllers
      ensures controllers == WithController(old(controllers), cls, bases)
    {
      var i := 0;
      while i < |controllers|
        invariant 0 <= i <= |controllers|
        invariant forall j :: 0 <= j < i ==> !IsInstance(controllers[j], cls)
      {
        if IsInstance(controllers[i], cls) {
          return;
        }
        i := i + 1;
      }
      controllers := controllers + [Controller(cls, bases, false)];
    }

    /** `Close`: every registered controller is closed, in order. */
    method Close()
      modifies this`closed
      ensures closed == old(closed) + controllers
    {
      var i := 0;
      while i < |controllers|
        invariant 0 <= i <= |controllers|
        invariant closed == old(closed) + controllers[..i]
      {
        assert controllers[..i + 1] == controllers[..i] + [controllers[i]];
        closed := closed + [controllers[i]];
        i := i + 1;
      }
      assert controllers[..i] == controllers;
    }
  }
}
