/**
 The macOS accessibility bridge (crates/multiplex-accessibility-macos/src/lib.rs): two maps, from node ids to
 semantic models and to native elements, that patches change one entry at a time and may leave half done, and a
 focus flag kept inside the elements.
 */
module Accessibility {
  import opened Wrappers

  datatype SemanticAction = Focus | Activate | SetValue | Increment | Decrement | Dismiss | Cancel

  type NodeId = nat
  type Text = nat  // a message id or a piece of user text; the resolver turns it into words

  datatype Node = Node(
    id: NodeId,
    parent: Option<NodeId>,
    actions: set<SemanticAction>,
    name: Option<Text>,
    description: Option<Text>,
    publicText: Option<Text>,
    hidden: bool)

  datatype Change = Removed(removed: NodeId) | Added(node: Node) | Updated(node: Node)

  datatype Patch = Patch(generation: u64, root: NodeId, changes: seq<Change>)

  datatype SemanticError =
    | StaleGeneration | StaleNode | MissingName | InvalidValue | MissingParent | MissingRoot | BridgeUnavailable

  // ---- action bits ----

  /** The low byte of the u64 the action bits are kept in; seven actions set no higher bit. */
  type Bits = bv8

  function Mask(a: SemanticAction): Bits {
    match a
    case Focus => 1
    case Activate => 2
    case SetValue => 4
    case Increment => 8
    case Decrement => 16
    case Dismiss => 32
    case Cancel => 64
  }

  const ALL_ACTIONS: seq<SemanticAction> := [Focus, Activate, SetValue, Increment, Decrement, Dismiss, Cancel]

  function Or(x: Bits, y: Bits): Bits { x | y }

  predicate Test(bits: Bits, mask: Bits) { bits & mask != 0 }

  predicate HasBit(bits: Bits, a: SemanticAction) { Test(bits, Mask(a)) }

  /** The members of a set in their declaration order, as a BTreeSet iterates. */
  function Ascending(actions: set<SemanticAction>, order: seq<SemanticAction>): seq<SemanticAction> {
    if order == [] then [] else (if order[0] in actions then [order[0]] else []) + Ascending(actions, order[1..])
  }

  function Fold(bits: Bits, actions: seq<SemanticAction>): Bits
    decreases |actions|
  {
    if actions == [] then bits else Fold(Or(bits, Mask(actions[0])), actions[1..])
  }

  function ActionBits(actions: set<SemanticAction>): Bits { Fold(0, Ascending(actions, ALL_ACTIONS)) }

  lemma OrKeepsBits(x: Bits, y: Bits, mask: Bits)
    ensures Test(Or(x, y), mask) <==> Test(x, mask) || Test(y, mask)
  {
  }

  lemma MasksAreDisjoint(a: SemanticAction, b: SemanticAction)
    ensures Test(Mask(a), Mask(b)) <==> a == b
  {
  }

  lemma NoBitInZero(mask: Bits)
    ensures !Test(0, mask)
  {
  }

  lemma {:induction false} FoldHasBit(bits: Bits, actions: seq<SemanticAction>, a: SemanticAction)
    ensures HasBit(Fold(bits, actions), a) <==> HasBit(bits, a) || a in actions
    decreases |actions|
  {
    hide Mask, Or, Test;
    if actions != [] {
      FoldHasBit(Or(bits, Mask(actions[0])), actions[1..], a);
      OrKeepsBits(bits, Mask(actions[0]), Mask(a));
      MasksAreDisjoint(actions[0], a);
      assert actions == [actions[0]] + actions[1..];
    }
  }

  lemma {:induction false} AscendingHas(actions: set<SemanticAction>, order: seq<SemanticAction>, a: SemanticAction)
    ensures a in Ascending(actions, order) <==> a in actions && a in order
    decreases |order|
  {
    if order != [] {
      AscendingHas(actions, order[1..], a);
      assert order == [order[0]] + order[1..];
    }
  }

  lemma AllActionsAreListed(a: SemanticAction)
    ensures a in ALL_ACTIONS
  {
    assert ALL_ACTIONS[0] == Focus && ALL_ACTIONS[1] == Activate && ALL_ACTIONS[2] == SetValue
        && ALL_ACTIONS[3] == Increment && ALL_ACTIONS[4] == Decrement && ALL_ACTIONS[5] == Dismiss
        && ALL_ACTIONS[6] == Cancel;
  }

  /** The bit test the native side makes answers membership in the node's action set. */
  lemma BitMeansMember(actions: set<SemanticAction>, a: SemanticAction)
    ensures HasBit(ActionBits(actions), a) <==> a in actions
  {
    hide Mask, Or, Test, Fold, Ascending;
    FoldHasBit(0, Ascending(actions, ALL_ACTIONS), a);
    AscendingHas(actions, ALL_ACTIONS, a);
    AllActionsAreListed(a);
    NoBitInZero(Mask(a));
  }

  /** Comparing action bits, as an update does, compares the action sets. */
  lemma BitsAgreeExactly(a: set<SemanticAction>, b: set<SemanticAction>)
    ensures ActionBits(a) == ActionBits(b) <==> a == b
  {
    hide ActionBits, Mask, HasBit;
    if a != b {
      var x :| x in (a - b) + (b - a);
      BitMeansMember(a, x);
      BitMeansMember(b, x);
    }
  }

  // ---- what a list of changes means ----

  type Models = map<NodeId, Node>

  predicate Applies(models: Models, change: Change) { change.Updated? ==> change.node.id in models }

  function ApplyChange(models: Models, change: Change): Models {
    match change
    case Removed(id) => models - {id}
    case Added(node) => models[node.id := node]
    case Updated(node) => models[node.id := node]
  }

  function ApplyChanges(models: Models, changes: seq<Change>): Models
    decreases |changes|
  {
    if changes == [] then models
    else ApplyChange(ApplyChanges(models, changes[..|changes| - 1]), changes[|changes| - 1])
  }

  /** The ids whose native element a change throws away: an update does so only when the action set changes. */
  function Retires(models: Models, change: Change): set<NodeId> {
    match change
    case Removed(id) => {id}
    case Added(node) => {node.id}
    case Updated(node) => if node.id in models && models[node.id].actions != node.actions then {node.id} else {}
  }

  function Retired(models: Models, changes: seq<Change>): set<NodeId>
    decreases |changes|
  {
    if changes == [] then {}
    else var front := changes[..|changes| - 1];
         Retired(models, front) + Retires(ApplyChanges(models, front), changes[|changes| - 1])
  }

  /** Every update finds its node, whatever came before it. */
  ghost predicate AllApply(models: Models, changes: seq<Change>) {
    forall k :: 0 <= k < |changes| ==> Applies(ApplyChanges(models, changes[..k]), changes[k])
  }

  lemma AllApplyNothing(models: Models)
    ensures AllApply(models, [])
  {
  }

  lemma OneMoreChange(models: Models, changes: seq<Change>, k: nat)
    requires k < |changes|
    ensures ApplyChanges(models, changes[..k + 1]) == ApplyChange(ApplyChanges(models, changes[..k]), changes[k])
    ensures Retired(models, changes[..k + 1])
         == Retired(models, changes[..k]) + Retires(ApplyChanges(models, changes[..k]), changes[k])
    ensures AllApply(models, changes[..k]) && Applies(ApplyChanges(models, changes[..k]), changes[k])
        ==> AllApply(models, changes[..k + 1])
  {
    hide ApplyChange, Applies, Retires, AllApply;
    assert changes[..k + 1][..k] == changes[..k];
    OneMoreApplies(models, changes, k);
  }

  lemma OneMoreApplies(models: Models, changes: seq<Change>, k: nat)
    requires k < |changes|
    ensures AllApply(models, changes[..k]) && Applies(ApplyChanges(models, changes[..k]), changes[k])
        ==> AllApply(models, changes[..k + 1])
  {
    hide ApplyChanges, Applies;
    assert forall j :: 0 <= j <= k ==> changes[..k + 1][..j] == changes[..j];
    assert forall j :: 0 <= j < k ==> changes[..k][..j] == changes[..j];
  }

  lemma {:induction false} SurvivorsKeepTheirActions(models: Models, changes: seq<Change>, id: NodeId)
    requires id in ApplyChanges(models, changes) && id !in Retired(models, changes) && AllApply(models, changes)
    ensures id in models && ApplyChanges(models, changes)[id].actions == models[id].actions
    decreases |changes|
  {
    if changes != [] {
      var front := changes[..|changes| - 1];
      assert forall k :: 0 <= k < |front| ==> front[..k] == changes[..k];
      assert Applies(ApplyChanges(models, changes[..|front|]), changes[|front|]);
      SurvivorsKeepTheirActions(models, front, id);
    }
  }

  // ---- the bridge ----

  /** The part of a native element the bridge writes; its class, fixed when it is made, carries the action bits. */
  class NativeElement {
    const classBits: Bits
    var focused: bool
    var node: NodeId
    var generation: nat
    var actionBits: Bits
    var title: Option<string>
    var parent: NativeElement?     // null stands for the window's content view
    var children: set<NativeElement>

    constructor (bits: Bits)
      ensures classBits == bits && !focused
    {
      classBits := bits;
      focused := false;
      node, generation, actionBits, title, parent, children := 0, 0, 0, None, null, {};
    }
  }

  class Bridge {
    const resolver: Text -> Option<string>
    var generation: Option<u64>
    var root: Option<NodeId>
    var models: Models
    var elements: map<NodeId, NativeElement>
    var focused: Option<NodeId>

    /** The two maps agree; this does not depend on what the elements hold. */
    ghost predicate MapsAgree()
      reads this
    {
      && models.Keys == elements.Keys
      && (forall id :: id in elements ==> elements[id].classBits == ActionBits(models[id].actions))
      && (forall a, b :: a in elements && b in elements && a != b ==> elements[a] != elements[b])
      && (forall id :: id in models ==> models[id].id == id)
      && (generation.None? ==> models == map[])
    }

    ghost predicate Valid()
      reads this, elements.Values
    {
      && MapsAgree()
      && (forall id :: id in elements && elements[id].focused ==> focused == Some(id))
    }

    constructor (resolver: Text -> Option<string>)
      ensures Valid() && generation == None && focused == None
    {
      this.resolver := resolver;
      generation, root, models, elements, focused := None, None, map[], map[], None;
    }

    predicate Unresolved(text: Option<Text>) { text.Some? && resolver(text.value) == None }

    /** What configure_element refuses a node for. */
    function Fault(node: Node): (r: Option<SemanticError>)
      ensures r.None? || r.value in {MissingName, InvalidValue}
    {
      if Unresolved(node.name) || Unresolved(node.description) then Some(MissingName)
      else if Unresolved(node.publicText) then Some(InvalidValue)
      else None
    }

    function ChildrenOf(id: NodeId): set<NativeElement>
      reads this
      requires models.Keys == elements.Keys
    {
      set child | child in models && models[child].parent == Some(id) && !models[child].hidden :: elements[child]
    }

    ghost predicate Described(e: NativeElement, node: Node, generation: u64)
      reads e
    {
      && e.node == node.id && e.generation == generation && e.actionBits == ActionBits(node.actions)
      && e.title == if node.name.Some? then resolver(node.name.value) else None
    }

    ghost predicate Placed(e: NativeElement, parent: NativeElement?, children: set<NativeElement>)
      reads e
    {
      e.parent == parent && e.children == children
    }

    function ParentOf(id: NodeId): NativeElement?
      requires id in models
      reads this
    {
      var parent := models[id].parent;
      if parent.Some? && parent.value in elements then elements[parent.value] else null
    }

    predicate Parented(id: NodeId)
      requires id in models
      reads this
    {
      models[id].parent.Some? ==> models[id].parent.value in models
    }

    ghost predicate AllDescribed()
      requires MapsAgree() && generation.Some?
      reads this, elements.Values
    {
      forall id :: id in elements ==> Described(elements[id], models[id], generation.value)
    }

    /** The native tree says what the models say. */
    ghost predicate Published()
      requires MapsAgree() && generation.Some?
      reads this, elements.Values
    {
      && AllDescribed()
      && (forall id :: id in elements ==> Placed(elements[id], ParentOf(id), ChildrenOf(id)))
    }

    /** When a tree can be published at all. */
    ghost predicate Publishable()
      reads this
    {
      && (forall id :: id in models ==> Fault(models[id]).None?)
      && (forall id :: id in models ==> Parented(id))
      && root.Some? && root.value in models
    }

    method Describe(e: NativeElement, node: Node) returns (r: Option<SemanticError>)
      requires generation.Some?
      modifies e`node, e`generation, e`actionBits, e`title
      ensures r == Fault(node)
      ensures r.None? ==> Described(e, node, generation.value)
    {
      hide ActionBits, Mask;
      r := Fault(node);
      if r.Some? { return; }
      e.node, e.generation, e.actionBits := node.id, generation.value, ActionBits(node.actions);
      e.title := if node.name.Some? then resolver(node.name.value) else None;
    }

    method DescribeAll() returns (r: Option<SemanticError>)
      requires MapsAgree() && generation.Some?
      modifies elements.Values`node, elements.Values`generation, elements.Values`actionBits, elements.Values`title
      ensures r.None? <==> forall id :: id in models ==> Fault(models[id]).None?
      ensures r.None? ==> AllDescribed()
      ensures r.None? || r.value in {MissingName, InvalidValue}
    {
      hide ActionBits, Described, Fault;
      var pending := models.Keys;
      while pending != {}
        invariant pending <= models.Keys
        invariant forall id :: id in models && id !in pending ==> Fault(models[id]).None?
        invariant forall id :: id in models && id !in pending ==> Described(elements[id], models[id], generation.value)
        decreases |pending|
      {
        var id :| id in pending;
        r := Describe(elements[id], models[id]);
        if r.Some? { return; }
        pending := pending - {id};
      }
      r := None;
    }

    method Place(e: NativeElement, parent: NativeElement?, children: set<NativeElement>)
      modifies e`parent, e`children
      ensures Placed(e, parent, children)
      ensures forall node, g :: old(Described(e, node, g)) ==> Described(e, node, g)
    {
      hide ActionBits;
      e.parent := parent;
      e.children := children;
    }

    method PlaceAll() returns (r: Option<SemanticError>)
      requires MapsAgree() && generation.Some? && AllDescribed()
      modifies elements.Values`parent, elements.Values`children
      ensures r.None? <==> forall id :: id in models ==> Parented(id)
      ensures r.None? ==> Published()
      ensures r.None? || r == Some(MissingParent)
    {
      hide ActionBits, Fault, Described, Placed, ParentOf, ChildrenOf;
      var pending := models.Keys;
      while pending != {}
        invariant pending <= models.Keys
        invariant forall id :: id in models ==> Described(elements[id], models[id], generation.value)
        invariant forall id :: id in models && id !in pending ==> Parented(id)
        invariant forall id :: id in models && id !in pending ==> Placed(elements[id], ParentOf(id), ChildrenOf(id))
        decreases |pending|
      {
        var id :| id in pending;
        if models[id].parent.Some? && models[id].parent.value !in elements {
          assert !Parented(id);
          return Some(MissingParent);
        }
        Place(elements[id], ParentOf(id), ChildrenOf(id));
        pending := pending - {id};
      }
      r := None;
    }

    method RebuildNativeTree() returns (r: Option<SemanticError>)
      requires MapsAgree() && generation.Some?
      modifies elements.Values`node, elements.Values`generation, elements.Values`actionBits, elements.Values`title
      modifies elements.Values`parent, elements.Values`children
      ensures r.None? <==> Publishable()
      ensures r.None? ==> Published()
      ensures r.None? || r.value in {MissingName, InvalidValue, MissingParent, MissingRoot}
    {
      hide ActionBits, Fault, Described, Placed, ParentOf, ChildrenOf;
      r := DescribeAll();
      if r.Some? { return; }
      r := PlaceAll();
      if r.Some? { return; }
      r := if root.Some? && root.value in elements then None else Some(MissingRoot);
    }

    /** Class registration and allocation may fail; nothing else is known about when. */
    method CreateElement(actions: set<SemanticAction>) returns (e: NativeElement?)
      ensures e != null ==> fresh(e) && e.classBits == ActionBits(actions) && !e.focused
    {
      var available: bool := *;
      if available { e := new NativeElement(ActionBits(actions)); } else { e := null; }
    }

    /** A new element and its model go in together, or nothing changes. */
    method Install(node: Node) returns (ok: bool)
      requires MapsAgree() && generation.Some?
      modifies this`models, this`elements
      ensures MapsAgree()
      ensures !ok ==> models == old(models) && elements == old(elements)
      ensures ok ==> models == old(models)[node.id := node] && elements.Keys == old(elements).Keys + {node.id}
      ensures ok ==> fresh(elements[node.id]) && !elements[node.id].focused
      ensures ok ==> forall id :: id in elements && id != node.id ==> elements[id] == old(elements)[id]
    {
      hide ActionBits;
      var e := CreateElement(node.actions);
      if e == null { return false; }
      elements := elements[node.id := e];
      models := models[node.id := node];
      ok := true;
    }

    /** An update keeps the native element unless the action set changed. */
    method Refresh(node: Node) returns (ok: bool)
      requires MapsAgree() && generation.Some? && node.id in models
      modifies this`models, this`elements
      ensures MapsAgree()
      ensures !ok ==> models == old(models) && elements == old(elements)
      ensures ok ==> models == old(models)[node.id := node] && elements.Keys == old(elements).Keys
      ensures ok && old(models)[node.id].actions != node.actions
          ==> fresh(elements[node.id]) && !elements[node.id].focused
      ensures ok && old(models)[node.id].actions == node.actions ==> elements[node.id] == old(elements)[node.id]
      ensures ok ==> forall id :: id in elements && id != node.id ==> elements[id] == old(elements)[id]
    {
      hide ActionBits;
      BitsAgreeExactly(models[node.id].actions, node.actions);
      if ActionBits(models[node.id].actions) != ActionBits(node.actions) {
        ok := Install(node);
      } else {
        models := models[node.id := node];
        ok := true;
      }
    }

    /** One change: both maps move together, or neither does. */
    method Apply(change: Change) returns (r: Option<SemanticError>)
      requires MapsAgree() && generation.Some?
      modifies this`models, this`elements
      ensures MapsAgree()
      ensures r.None? ==> Applies(old(models), change) && models == ApplyChange(old(models), change)
      ensures r.None? ==> forall id :: id in elements && id !in Retires(old(models), change) ==>
                            id in old(elements) && elements[id] == old(elements)[id]
      ensures r.None? ==> forall id :: id in elements && id in Retires(old(models), change) ==>
                            fresh(elements[id]) && !elements[id].focused
      ensures r.Some? ==> models == old(models) && elements == old(elements)
      ensures r == Some(StaleNode) <==> !Applies(old(models), change)
      ensures r.None? || r.value in {StaleNode, BridgeUnavailable}
    {
      hide ActionBits;
      r := None;
      match change
      case Removed(id) =>
        models := models - {id};
        elements := elements - {id};
      case Added(node) =>
        var ok := Install(node);
        if !ok { return Some(BridgeUnavailable); }
      case Updated(node) =>
        if node.id !in elements { return Some(StaleNode); }
        var ok := Refresh(node);
        if !ok { return Some(BridgeUnavailable); }
    }

    /** The loop over a patch's changes; it stops at the first that cannot be made. */
    method ApplyAll(changes: seq<Change>) returns (r: Option<SemanticError>, done: nat)
      requires MapsAgree() && generation.Some?
      modifies this`models, this`elements
      ensures MapsAgree()
      ensures done <= |changes|
      ensures AllApply(old(models), changes[..done]) && models == ApplyChanges(old(models), changes[..done])
      ensures forall id :: id in elements ==>
                if id in Retired(old(models), changes[..done]) then fresh(elements[id]) && !elements[id].focused
                else id in old(elements) && elements[id] == old(elements)[id]
      ensures r.None? ==> done == |changes|
      ensures r.Some? ==> done < |changes| && r.value in {StaleNode, BridgeUnavailable}
      ensures r == Some(StaleNode) <==> done < |changes| && !Applies(models, changes[done])
    {
      hide ActionBits, MapsAgree, AllApply, ApplyChange, Applies, Retires;
      done := 0;
      r := None;
      AllApplyNothing(models);
      while done < |changes|
        invariant done <= |changes| && r.None?
        invariant MapsAgree()
        invariant AllApply(old(models), changes[..done]) && models == ApplyChanges(old(models), changes[..done])
        invariant forall id :: id in elements ==>
                    if id in Retired(old(models), changes[..done]) then fresh(elements[id]) && !elements[id].focused
                    else id in old(elements) && elements[id] == old(elements)[id]
      {
        OneMoreChange(old(models), changes, done);
        r := Apply(changes[done]);
        if r.Some? { return; }
        done := done + 1;
      }
    }

    /**
     A patch, as far as it gets: `done` is how many of its changes took effect. Whether it succeeds or stops
     part-way the maps agree, the models are exactly what the changes done so far say, an element survives iff
     none of them retired it, and no element has gained the focus flag.
     */
    method ApplyPatch(patch: Patch) returns (r: Option<SemanticError>, done: nat)
      requires Valid()
      modifies this`generation, this`root, this`models, this`elements
      modifies elements.Values`node, elements.Values`generation, elements.Values`actionBits, elements.Values`title
      modifies elements.Values`parent, elements.Values`children
      ensures Valid() && focused == old(focused)
      ensures old(generation).Some? ==> generation.Some? && generation.value >= old(generation).value
      ensures r == Some(StaleGeneration) <==> old(generation).Some? && old(generation).value > patch.generation
      ensures r == Some(StaleGeneration) ==>
                generation == old(generation) && root == old(root) && models == old(models) && elements == old(elements)
      ensures r != Some(StaleGeneration) ==>
                var base := if old(generation) == Some(patch.generation) then old(models) else map[];
                && generation == Some(patch.generation) && root == Some(patch.root)
                && done <= |patch.changes|
                && AllApply(base, patch.changes[..done])
                && models == ApplyChanges(base, patch.changes[..done])
                && (r == Some(StaleNode) <==>
                      done < |patch.changes| && !Applies(models, patch.changes[done]))
                && (r.None? || r.value in {MissingName, InvalidValue, MissingParent, MissingRoot} ==>
                      done == |patch.changes| && (r.None? <==> Publishable()))
                && (r.None? ==> Published())
                && (forall id :: id in elements ==>
                      if id in Retired(base, patch.changes[..done]) then fresh(elements[id]) && !elements[id].focused
                      else id in old(elements) && elements[id] == old(elements)[id])
    {
      hide ActionBits, Published, Publishable, AllApply, ApplyChanges, Applies, Retired;
      done := 0;
      if generation.Some? && generation.value > patch.generation { return Some(StaleGeneration), 0; }
      if generation != Some(patch.generation) {
        models := map[];
        elements := map[];
      }
      generation := Some(patch.generation);
      root := Some(patch.root);
      r, done := ApplyAll(patch.changes);
      if r.Some? { return; }
      r := RebuildNativeTree();
    }

    /**
     Success leaves the flag on the target's element and nowhere else; a stale target leaves it nowhere at all,
     although the focus recorded before is kept.
     */
    method SetFocus(wanted: u64, target: Option<NodeId>) returns (r: Option<SemanticError>)
      requires Valid()
      modifies this`focused, elements.Values`focused
      ensures Valid()
      ensures r == Some(StaleGeneration) <==> generation != Some(wanted)
      ensures r == Some(StaleNode) <==> generation == Some(wanted) && target.Some? && target.value !in elements
      ensures r.None? || r.value in {StaleGeneration, StaleNode}
      ensures r == Some(StaleGeneration) ==>
                focused == old(focused)
                && forall id :: id in elements ==> elements[id].focused == old(elements[id].focused)
      ensures r == Some(StaleNode) ==> focused == old(focused) && forall id :: id in elements ==> !elements[id].focused
      ensures r.None? ==>
          focused == target && forall id :: id in elements ==> (elements[id].focused <==> target == Some(id))
    {
      hide ActionBits;
      if generation != Some(wanted) { return Some(StaleGeneration); }
      if focused != target && focused.Some? && focused.value in elements {
        elements[focused.value].focused := false;
      }
      if target.Some? {
        if target.value !in elements { return Some(StaleNode); }
        elements[target.value].focused := true;
      }
      focused := target;
      r := None;
    }
  }
}
