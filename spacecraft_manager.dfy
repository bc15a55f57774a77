/**
 * The spacecraft manager's part bookkeeping: numbering the vessel's parts with tags
 * in pre-order, mirroring the part tree into `Part` records, classifying each part by
 * the first module it carries, and tabulating resources.
 *
 * A kRPC part is a `KrpcPart` value naming its own `index`; the tag the kRPC server
 * stores for each part is the mutable slot `tags[index]`.
 */
module SpacecraftManager {
  import opened Wrappers
  import opened Text

  /** `AttachmentMode`. */
  datatype AttachmentMode = RADIAL | AXIAL

  /** `PartType`, in declaration order, with its attribute names. */
  datatype PartType =
    | NONE | ANTENNA | CARGO_BAY | CONTROL_SURFACE | DECOUPLER | DOCKING_PORT | ENGINE
    | EXPERIMENT | EXPERIMENTS | FAIRING | INTAKE | LEG | LAUNCH_CLAMP | LIGHT | PARACHUTE
    | RADIATOR | RESOURCE_DRAIN | RCS | REACTION_WHEEL | RESOURCE_CONVERTER
    | RESOURCE_HARVESTER | ROBOTIC_CONTROLLER | ROBOTIC_HINGE | ROBOTIC_PISTON
    | ROBOTIC_ROTATION | ROBOTIC_ROTOR | SENSOR | SOLAR_PANEL | WHEEL
  {
    function Value(): string
    {
      match this
      case NONE => "none"
      case ANTENNA => "antenna"
      case CARGO_BAY => "cargo_bay"
      case CONTROL_SURFACE => "control_surface"
      case DECOUPLER => "decoupler"
      case DOCKING_PORT => "docking_port"
      case ENGINE => "engine"
      case EXPERIMENT => "experiment"
      case EXPERIMENTS => "experiements"
      case FAIRING => "fairing"
      case INTAKE => "intake"
      case LEG => "leg"
      case LAUNCH_CLAMP => "launch_clamp"
      case LIGHT => "light"
      case PARACHUTE => "parachute"
      case RADIATOR => "radiator"
      case RESOURCE_DRAIN => "resource_drain"
      case RCS => "rcs"
      case REACTION_WHEEL => "reaction_wheel"
      case RESOURCE_CONVERTER => "resource_converter"
      case RESOURCE_HARVESTER => "resource_harvester"
      case ROBOTIC_CONTROLLER => "robotic_controller"
      case ROBOTIC_HINGE => "robotic_hinge"
      case ROBOTIC_PISTON => "robotic_piston"
      case ROBOTIC_ROTATION => "robotic_rotation"
      case ROBOTIC_ROTOR => "robotic_rotor"
      case SENSOR => "sensor"
      case SOLAR_PANEL => "solar_panel"
      case WHEEL => "wheel"
    }
  }

  /** Iteration order of `for part_type in PartType`. */
  const PartTypes: seq<PartType> := [
    NONE, ANTENNA, CARGO_BAY, CONTROL_SURFACE, DECOUPLER, DOCKING_PORT, ENGINE,
    EXPERIMENT, EXPERIMENTS, FAIRING, INTAKE, LEG, LAUNCH_CLAMP, LIGHT, PARACHUTE,
    RADIATOR, RESOURCE_DRAIN, RCS, REACTION_WHEEL, RESOURCE_CONVERTER,
    RESOURCE_HARVESTER, ROBOTIC_CONTROLLER, ROBOTIC_HINGE, ROBOTIC_PISTON,
    ROBOTIC_ROTATION, ROBOTIC_ROTOR, SENSOR, SOLAR_PANEL, WHEEL]

  /**
   * A part as the kRPC server presents it. `attributes` holds the names of the
   * attributes the part has with a value other than None.
   */
  datatype KrpcPart = KrpcPart(
    index: nat, name: string, title: string, axiallyAttached: bool,
    mass: real, temperature: real, maxTemperature: real,
    attributes: set<string>, children: seq<KrpcPart>)

  /** `Part`: the record of the part tree. */
  datatype Part = Part(
    id: string, name: string, title: string, partType: PartType,
    mass: real, temperature: real, maxTemperature: real,
    attachment: AttachmentMode, children: seq<Part>)

  // -------------------------------------------------------------- classification

  /** The first of `types` whose attribute the part carries. */
  function FirstCarried(types: seq<PartType>, attributes: set<string>): (r: Option<nat>)
    ensures r.None? <==> forall k :: 0 <= k < |types| ==> types[k].Value() !in attributes
    ensures r.Some? ==> r.value < |types| && types[r.value].Value() in attributes
    ensures r.Some? ==> forall k :: 0 <= k < r.value ==> types[k].Value() !in attributes
  {
    if |types| == 0 then None
    else if types[0].Value() in attributes then Some(0)
    else
      match FirstCarried(types[1..], attributes)
      case None => None
      case Some(k) => Some(k + 1)
  }

  /** `_determine_part_type`: the first type in declaration order the part carries, else NONE. */
  function DeterminePartType(attributes: set<string>): (r: PartType)
  {
    match FirstCarried(PartTypes, attributes)
    case None => NONE
    case Some(k) => PartTypes[k]
  }

  /**
   * The classification is the first carried type: a type it returns other than NONE is
   * carried and every type declared before it is not; NONE comes back when nothing is
   * carried or when the part carries a `none` attribute.
   */
  lemma DeterminePartTypeSpec(attributes: set<string>)
    ensures var r := DeterminePartType(attributes);
      exists k :: 0 <= k < |PartTypes| && PartTypes[k] == r
        && (r.Value() in attributes || (r == NONE && forall j :: 0 <= j < |PartTypes| ==> PartTypes[j].Value() !in attributes))
        && forall j :: 0 <= j < k ==> PartTypes[j].Value() !in attributes
  {
    match FirstCarried(PartTypes, attributes)
    case None => assert PartTypes[0] == NONE;
    case Some(k) =>
  }

  // ---------------------------------------------------------------- pre-order

  /** The parts of a subtree in pre-order: the part, then each child's subtree in turn. */
  function Preorder(p: KrpcPart): (ids: seq<nat>)
    ensures |ids| >= 1 && ids[0] == p.index
    decreases p, 1
  {
    [p.index] + PreorderAll(p.children)
  }

  /** The pre-orders of a sequence of sibling subtrees, one after another. */
  function PreorderAll(cs: seq<KrpcPart>): seq<nat>
    decreases cs, 0
  {
    if |cs| == 0 then [] else PreorderAll(cs[..|cs| - 1]) + Preorder(cs[|cs| - 1])
  }

  /** Every part of `ids` has a tag slot below n. */
  predicate Bounded(ids: seq<nat>, n: int)
  {
    forall k :: 0 <= k < |ids| ==> ids[k] < n
  }

  predicate Distinct(ids: seq<nat>)
  {
    forall a, b :: 0 <= a < b < |ids| ==> ids[a] != ids[b]
  }

  /** The siblings before child i, then child i, lie at the front of the parent's children pre-order. */
  lemma {:induction false} PreorderAllPrefix(cs: seq<KrpcPart>, i: nat)
    requires i < |cs|
    ensures PreorderAll(cs[..i + 1]) == PreorderAll(cs[..i]) + Preorder(cs[i])
    ensures PreorderAll(cs[..i + 1]) <= PreorderAll(cs)
    decreases |cs| - i
  {
    assert cs[..i + 1][..i] == cs[..i];
    if i + 1 < |cs| {
      PreorderAllPrefix(cs, i + 1);
    } else {
      assert cs[..i + 1] == cs;
    }
  }

  /**
   * What numbering child i needs from its parent's well-formedness: its own subtree is
   * duplicate-free, and shares no part with the parent or the earlier siblings.
   */
  lemma ChildSlot(p: KrpcPart, i: nat)
    requires i < |p.children| && Distinct(Preorder(p))
    ensures Distinct(Preorder(p.children[i]))
    ensures p.index !in Preorder(p.children[i])
    ensures forall a, b :: 0 <= a < |PreorderAll(p.children[..i])| && 0 <= b < |Preorder(p.children[i])| ==>
      PreorderAll(p.children[..i])[a] != Preorder(p.children[i])[b]
  {
    var cs := p.children;
    PreorderAllPrefix(cs, i);
    var front, mine := PreorderAll(cs[..i]), Preorder(cs[i]);
    var all := Preorder(p);
    var grown := PreorderAll(cs[..i + 1]);
    assert all == [p.index] + PreorderAll(cs);
    assert grown <= PreorderAll(cs) && grown == front + mine;
    DistinctSlices(all, front, mine);
  }

  /** Within a duplicate-free list, the head and two adjacent runs after it share nothing. */
  lemma DistinctSlices(all: seq<nat>, front: seq<nat>, mine: seq<nat>)
    requires Distinct(all) && |all| >= 1 && front + mine <= all[1..]
    ensures Distinct(mine) && all[0] !in mine
    ensures forall a, b :: 0 <= a < |front| && 0 <= b < |mine| ==> front[a] != mine[b]
  {
    var n := |front|;
    assert forall a :: 0 <= a < n ==> front[a] == (front + mine)[a] == all[1 + a];
    assert forall b :: 0 <= b < |mine| ==> mine[b] == (front + mine)[n + b] == all[1 + n + b];
  }

  /** Tags given at different positions of the numbering differ: `f"{tag:03}"` is one-to-one. */
  lemma TagsDistinct(a: int, b: int)
    requires a != b
    ensures ZeroPad(a, 3) != ZeroPad(b, 3)
  {
    ParseIntZeroPad(a, 3);
    ParseIntZeroPad(b, 3);
  }

  // ------------------------------------------------------------------ the tree

  /** `construct_part_tree`'s output agrees with the kRPC part at every node. */
  predicate Mirrors(r: Part, p: KrpcPart, tags: seq<string>)
    requires Bounded(Preorder(p), |tags|)
    decreases p
  {
    r.id == tags[p.index] && r.name == p.name && r.title == p.title
    && r.partType == DeterminePartType(p.attributes)
    && r.attachment == (if p.axiallyAttached then AXIAL else RADIAL)
    && r.mass == p.mass && r.temperature == p.temperature && r.maxTemperature == p.maxTemperature
    && |r.children| == |p.children|
    && forall i :: 0 <= i < |p.children| ==>
         (SubtreeBounded(p, i, |tags|); Mirrors(r.children[i], p.children[i], tags))
  }

  /** A child's subtree is part of its parent's. */
  lemma SubtreeBounded(p: KrpcPart, i: nat, n: nat)
    requires i < |p.children| && Bounded(Preorder(p), n)
    ensures Bounded(Preorder(p.children[i]), n)
  {
    PreorderAllPrefix(p.children, i);
    var front, mine := PreorderAll(p.children[..i]), Preorder(p.children[i]);
    forall b | 0 <= b < |mine| ensures mine[b] < n {
      assert Preorder(p)[1 + |front| + b] == mine[b];
    }
  }

  /**
   * `construct_part_tree`: the same tree shape, each node carrying its part's tag as id,
   * its classification, and AXIAL exactly when the part is axially attached.
   */
  function ConstructPartTree(p: KrpcPart, tags: seq<string>): (r: Part)
    requires Bounded(Preorder(p), |tags|)
    ensures Mirrors(r, p, tags)
    decreases p
  {
    var children := seq(|p.children|, i requires 0 <= i < |p.children| =>
      SubtreeBounded(p, i, |tags|); ConstructPartTree(p.children[i], tags));
    Part(tags[p.index], p.name, p.title, DeterminePartType(p.attributes),
         p.mass, p.temperature, p.maxTemperature,
         if p.axiallyAttached then AXIAL else RADIAL, children)
  }

  // ---------------------------------------------------------------- resources

  /** One row of the `get_resources` table. */
  datatype ResourceRow = ResourceRow(name: string, amount: real, max: real)

  // ---------------------------------------------------------------- the manager

  /** `SpacecraftManager`, holding the active vessel's root part and its parts' tag slots. */
  class SpacecraftManager {
    const root: KrpcPart
    const tags: array<string>

    /** Every part of the tree has its own tag slot. */
    predicate Valid()
    {
      Distinct(Preorder(root)) && Bounded(Preorder(root), tags.Length)
    }

    /** `__init__`: tags the vessel's parts. */
    constructor (root: KrpcPart, tags: array<string>)
      requires Distinct(Preorder(root)) && Bounded(Preorder(root), tags.Length)
      modifies tags
      ensures this.root == root && this.tags == tags && Valid()
      ensures forall k :: 0 <= k < |Preorder(root)| ==> tags[Preorder(root)[k]] == ZeroPad(k, 3)
      ensures forall j :: 0 <= j < tags.Length && j !in Preorder(root) ==> tags[j] == old(tags[j])
    {
      this.root := root;
      this.tags := tags;
      new;
      AssignIdsToParts();
    }

    /** `_assign_ids_to_parts`: the root gets 0 and the rest follow in pre-order. */
    method AssignIdsToParts()
      requires Valid()
      modifies tags
      ensures forall k :: 0 <= k < |Preorder(root)| ==> tags[Preorder(root)[k]] == ZeroPad(k, 3)
      ensures forall j :: 0 <= j < tags.Length && j !in Preorder(root) ==> tags[j] == old(tags[j])
    {
      var next := AssignTag(root, 0);
    }

    /**
     * `assign_tag`: tags the subtree of p in pre-order starting at `tag` and returns the
     * next free tag, `tag` plus the size of the subtree. Parts outside it keep their tags.
     */
    method AssignTag(p: KrpcPart, tag: int) returns (next: int)
      requires Distinct(Preorder(p)) && Bounded(Preorder(p), tags.Length)
      modifies tags
      ensures next == tag + |Preorder(p)|
      ensures forall k :: 0 <= k < |Preorder(p)| ==> tags[Preorder(p)[k]] == ZeroPad(tag + k, 3)
      ensures forall j :: 0 <= j < tags.Length && j !in Preorder(p) ==> tags[j] == old(tags[j])
      decreases p, 1
    {
      tags[p.index] := ZeroPad(tag, 3);
      var all, rest := Preorder(p), PreorderAll(p.children);
      assert all == [p.index] + rest;
      forall k | 0 <= k < |rest| ensures rest[k] < tags.Length && rest[k] != p.index {
        assert rest[k] == all[k + 1];
      }
      assert p.index !in rest;
      next := AssignChildren(p, tag + 1);
      forall k | 0 <= k < |all| ensures tags[all[k]] == ZeroPad(tag + k, 3) {
        if k > 0 {
          assert all[k] == rest[k - 1];
        }
      }
    }

    /** The loop over `part.children`: each child's subtree in turn, numbering on from `tag`. */
    method AssignChildren(p: KrpcPart, tag: int) returns (next: int)
      requires Distinct(Preorder(p)) && Bounded(Preorder(p), tags.Length)
      requires Bounded(PreorderAll(p.children), tags.Length)
      modifies tags
      ensures next == tag + |PreorderAll(p.children)|
      ensures forall k :: 0 <= k < |PreorderAll(p.children)| ==> tags[PreorderAll(p.children)[k]] == ZeroPad(tag + k, 3)
      ensures forall j :: 0 <= j < tags.Length && j !in PreorderAll(p.children) ==> tags[j] == old(tags[j])
      decreases p, 0
    {
      next := tag;
      var cs := p.children;
      var i := 0;
      ghost var done: seq<nat> := [];
      assert cs[..0] == [];
      while i < |cs|
        invariant 0 <= i <= |cs| && done == PreorderAll(cs[..i])
        invariant next == tag + |done| && Bounded(done, tags.Length)
        invariant forall k :: 0 <= k < |done| ==> tags[done[k]] == ZeroPad(tag + k, 3)
        invariant forall j :: 0 <= j < tags.Length && j !in done ==> tags[j] == old(tags[j])
      {
        ChildSlot(p, i);
        SubtreeBounded(p, i, tags.Length);
        PreorderAllPrefix(cs, i);
        ghost var mine := Preorder(cs[i]);
        next := AssignTag(cs[i], next);
        forall k | 0 <= k < |done + mine| ensures tags[(done + mine)[k]] == ZeroPad(tag + k, 3) {
          if k < |done| {
            assert (done + mine)[k] == done[k];
          } else {
            assert (done + mine)[k] == mine[k - |done|];
          }
        }
        done := done + mine;
        i := i + 1;
      }
      assert cs[..i] == cs;
    }

    /** `get_parts_tree`. */
    method GetPartsTree() returns (tree: Part)
      requires Valid()
      ensures Mirrors(tree, root, tags[..])
    {
      tree := ConstructPartTree(root, tags[..]);
    }

    /** `get_resources`: one row per resource name, in the order of `names`. */
    method GetResources(names: seq<string>, amount: string -> real, max: string -> real)
      returns (data: seq<ResourceRow>)
      ensures |data| == |names|
      ensures forall i :: 0 <= i < |names| ==> data[i] == ResourceRow(names[i], amount(names[i]), max(names[i]))
    {
      data := [];
      for i := 0 to |names|
        invariant |data| == i
        invariant forall k :: 0 <= k < i ==> data[k] == ResourceRow(names[k], amount(names[k]), max(names[k]))
      {
        data := data + [ResourceRow(names[i], amount(names[i]), max(names[i]))];
      }
    }
  }

  /** After tagging, two different parts of the tree carry different tags. */
  lemma TaggedPartsDistinct(p: KrpcPart, tags: seq<string>, a: nat, b: nat)
    requires forall k :: 0 <= k < |Preorder(p)| ==> Preorder(p)[k] < |tags| && tags[Preorder(p)[k]] == ZeroPad(k, 3)
    requires a < b < |Preorder(p)|
    ensures tags[Preorder(p)[a]] != tags[Preorder(p)[b]]
  {
    TagsDistinct(a, b);
  }
}
