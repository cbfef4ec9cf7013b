/**
 * `CombinedLightSystem`, of which lights/combined.py and
 * lights/system/combined.py hold the same class body: a light system made of an
 * ordered list of child systems. `add` appends to the list in place,
 * `connect` connects the children in order and stops at the first that
 * raises, and `lights` concatenates the children's lights in child order.
 */
module Combined {
  import opened Errors
  import opened Native
  import opened Dispatch
  import LightBase

  /** A Python list of light systems: an object several owners can share. */
  class SystemList {
    var items: seq<LightSystem>

    constructor (items: seq<LightSystem>)
      ensures this.items == items
    {
      this.items := items;
    }
  }

  /** The number of lights the children list together. */
  function LightCount(items: seq<LightSystem>): nat {
    if items == [] then 0 else items[0].LightCount() + LightCount(items[1..])
  }

  /**
   * `[l for s in systems for l in s.lights]`: each child's lights, child
   * after child; the first child that cannot list its lights raises.
   */
  function Gather(items: seq<LightSystem>): (r: Result<seq<Light>>)
    ensures r.Ok? <==> forall i :: 0 <= i < |items| ==> !items[i].Base?
    ensures r.Err? ==> r.error == LightBase.CANNOT_FETCH_LIGHTS
    ensures r.Ok? ==> |r.value| == LightCount(items)
  {
    if items == [] then Ok([])
    else
      match items[0].Lights()
      case Err(e) => Err(e)
      case Ok(first) =>
        match Gather(items[1..])
        case Err(e) => Err(e)
        case Ok(rest) => Ok(first + rest)
  }

  /**
   * The `j`-th light of child `i` sits in the concatenation right after the
   * lights of the children before `i`: child order and each child's own
   * order are both kept.
   */
  lemma {:induction false} GatherOrder(items: seq<LightSystem>, i: nat, j: nat)
    requires Gather(items).Ok?
    requires i < |items| && j < items[i].LightCount()
    ensures LightCount(items[..i]) + j < |Gather(items).value|
    ensures Gather(items).value[LightCount(items[..i]) + j] == items[i].Lights().value[j]
  {
    var first := items[0].Lights().value;
    var rest := Gather(items[1..]).value;
    assert Gather(items).value == first + rest;
    if i == 0 {
      assert items[..0] == [];
    } else {
      assert items[..i][0] == items[0];
      assert items[..i][1..] == items[1..][..i - 1];
      assert LightCount(items[..i]) == |first| + LightCount(items[1..][..i - 1]);
      GatherOrder(items[1..], i - 1, j);
      assert Gather(items).value[LightCount(items[..i]) + j] == rest[LightCount(items[1..][..i - 1]) + j];
    }
  }

  /** Appending a child appends its lights, or raises if it cannot list them. */
  lemma {:induction false} GatherAppend(items: seq<LightSystem>, s: LightSystem)
    ensures Gather(items).Ok? && s.Lights().Ok? ==>
      Gather(items + [s]) == Ok(Gather(items).value + s.Lights().value)
  {
    if items == [] {
      assert [] + [s] == [s];
      assert [s][1..] == [];
      if s.Lights().Ok? {
        assert s.Lights().value + [] == [] + s.Lights().value;
      }
    } else if Gather(items).Ok? && s.Lights().Ok? {
      var first := items[0].Lights().value;
      var rest := Gather(items[1..]).value;
      var last := s.Lights().value;
      assert (items + [s])[0] == items[0];
      assert (items + [s])[1..] == items[1..] + [s];
      GatherAppend(items[1..], s);
      assert Gather(items[1..] + [s]) == Ok(rest + last);
      assert first + (rest + last) == (first + rest) + last;
    }
  }

  /** The bridges the children talk to. */
  function Bridges(items: seq<LightSystem>): set<Bridge> {
    if items == [] then {}
    else Bridges(items[..|items| - 1]) + items[|items| - 1].Bridges()
  }

  /** Every child's bridges are among the children's bridges. */
  lemma {:induction false} BridgesCover(items: seq<LightSystem>, i: nat)
    requires i < |items|
    ensures items[i].Bridges() <= Bridges(items)
  {
    var last := |items| - 1;
    if i < last {
      assert items[..last][i] == items[i];
      BridgesCover(items[..last], i);
    }
  }

  /** The bridges of a prefix one child longer. */
  lemma BridgesStep(items: seq<LightSystem>, i: nat)
    requires i < |items|
    ensures Bridges(items[..i + 1]) == Bridges(items[..i]) + items[i].Bridges()
  {
    assert items[..i + 1][..i] == items[..i];
    assert items[..i + 1][i] == items[i];
  }

  /** The position of the first child whose `connect` raises, or the number of children. */
  function FirstUnreachable(items: seq<LightSystem>): (k: nat)
    ensures k <= |items|
    ensures forall i :: 0 <= i < k ==> items[i].Reachable()
    ensures k < |items| ==> !items[k].Reachable()
  {
    if items == [] || !items[0].Reachable() then 0
    else 1 + FirstUnreachable(items[1..])
  }

  /** A combined light system; it holds its list by reference. */
  class CombinedLightSystem {
    const systems: SystemList

    /** `CombinedLightSystem(systems)`: keeps the caller's list object itself, not a copy. */
    constructor (systems: SystemList)
      ensures this.systems == systems
    {
      this.systems := systems;
    }

    /** A combined system over a list of its own, empty at first: what the default argument is meant to give. */
    constructor Empty()
      ensures fresh(systems) && systems.items == []
    {
      systems := new SystemList([]);
    }

    /**
     * `lights`: listed exactly when no child is a bare base system, as many
     * as the children list together, so none without children.
     */
    function Lights(): (r: Result<seq<Light>>)
      reads systems
      ensures r.Ok? <==> forall i :: 0 <= i < |systems.items| ==> !systems.items[i].Base?
      ensures r.Err? ==> r.error == LightBase.CANNOT_FETCH_LIGHTS
      ensures r.Ok? ==> |r.value| == LightCount(systems.items)
      ensures systems.items == [] ==> r == Ok([])
    {
      Gather(systems.items)
    }

    /**
     * `add(system)`: appends to the shared list; earlier children stay as
     * they were, and the lights gain the new child's lights at the end.
     */
    method Add(system: LightSystem)
      modifies systems
      ensures systems.items == old(systems.items) + [system]
      ensures old(Lights()).Ok? && system.Lights().Ok? ==>
        Lights() == Ok(old(Lights()).value + system.Lights().value)
      ensures Lights().Ok? <==> old(Lights()).Ok? && !system.Base?
    {
      GatherAppend(systems.items, system);
      assert forall i :: 0 <= i < |systems.items| ==> (systems.items + [system])[i] == systems.items[i];
      assert (systems.items + [system])[|systems.items|] == system;
      systems.items := systems.items + [system];
    }

    /**
     * `connect`: connects the children in list order. The first child that
     * raises ends the loop with its error, so the children after it are not
     * connected; every bridge of a child before it is connected, and every
     * other bridge keeps its state.
     */
    method Connect() returns (r: Outcome)
      modifies Bridges(systems.items)
      ensures var k := FirstUnreachable(systems.items);
        (r == Pass <==> k == |systems.items|) &&
        (r != Pass ==> r == Fail(ConnectionError)) &&
        (forall b :: b in Bridges(systems.items[..k]) ==> b.connected) &&
        (forall b :: b in Bridges(systems.items) && old(allocated(b)) && b !in Bridges(systems.items[..k]) ==>
           b.connected == old(b.connected))
    {
      var items := systems.items;
      var i := 0;
      while i < |items|
        invariant 0 <= i <= FirstUnreachable(items)
        invariant forall b :: b in Bridges(items[..i]) ==> allocated(b) && b.connected
        invariant forall b :: b in Bridges(items) && old(allocated(b)) && b !in Bridges(items[..i]) ==>
          b.connected == old(b.connected)
      {
        BridgesStep(items, i);
        BridgesCover(items, i);
        assert allocated(items[i]);
        r := items[i].Connect();
        if r != Pass {
          assert i == FirstUnreachable(items);
          return;
        }
        i := i + 1;
      }
      assert items[..i] == items;
      r := Pass;
    }
  }

  /**
   * The default argument `[]` is one list object, made once: two systems
   * built without an argument share it, so adding a child to one adds it
   * to the other.
   */
  method DefaultListShared(default: SystemList, s: LightSystem) returns (a: CombinedLightSystem, b: CombinedLightSystem)
    requires default.items == []
    modifies default
    ensures a != b && a.systems == b.systems
    ensures a.systems.items == [s] && b.systems.items == [s]
  {
    a := new CombinedLightSystem(default);
    b := new CombinedLightSystem(default);
    a.Add(s);
  }

  /** With a list of its own per instance, adding a child to one system leaves another empty. */
  method FreshListsIndependent(s: LightSystem) returns (a: CombinedLightSystem, b: CombinedLightSystem)
    ensures a.systems != b.systems
    ensures a.systems.items == [s] && b.systems.items == []
    ensures a.Lights() == Gather([s]) && b.Lights() == Ok([])
  {
    a := new CombinedLightSystem.Empty();
    b := new CombinedLightSystem.Empty();
    a.Add(s);
  }
}
