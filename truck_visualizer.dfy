// The layout arithmetic of components/TruckVisualizer.tsx: the colour of a
// tier group, the total depth of the stack, each group's offset along the
// truck bed, its box in pixels, and the length of the drawn floor.

module TruckVisualizer {
  import opened Types
  import opened Strings
  import Constants

  /** Pixels per unit of tier width, tier height and tier count (depth). */
  const SCALE_X: real := 14.0
  const SCALE_Y: real := 14.0
  const SCALE_Z: real := 25.0

  /** The shortest floor drawn, in pixels. */
  const MIN_FLOOR: real := 300.0

  /** The colour of a group that matches no catalog item (slate-300). */
  const DEFAULT_COLOR: string := "#cbd5e1"

  // ---------------------------------------------------------------------
  // Colours
  // ---------------------------------------------------------------------

  /** The three ways a lower-cased group description can match an item:
      it names the item, both speak of sacks ("karung"), or the item is a
      box and the description speaks of boxes ("dus"). */
  predicate ItemMatches(item: ItemDef, lowerDesc: string)
  {
    Contains(lowerDesc, ToLower(item.name))
    || (Contains(item.id, "karung") && Contains(lowerDesc, "karung"))
    || (item.category == Box && Contains(lowerDesc, "dus"))
  }

  /** `catalog.find(...)`, as the index of the first matching item. */
  function FirstMatch(catalog: seq<ItemDef>, lowerDesc: string): (r: Option<nat>)
    ensures r.Some? ==> r.value < |catalog| && ItemMatches(catalog[r.value], lowerDesc)
    ensures r.Some? ==> forall j :: 0 <= j < r.value ==> !ItemMatches(catalog[j], lowerDesc)
    ensures r.None? <==> forall j :: 0 <= j < |catalog| ==> !ItemMatches(catalog[j], lowerDesc)
  {
    if catalog == [] then None
    else if ItemMatches(catalog[0], lowerDesc) then Some(0)
    else match FirstMatch(catalog[1..], lowerDesc)
      case None => None
      case Some(k) => Some(k + 1)
  }

  /** The colour of the first item of `catalog` matching `lowerDesc`, or the default. */
  function ColorFor(catalog: seq<ItemDef>, lowerDesc: string): string
  {
    match FirstMatch(catalog, lowerDesc)
    case Some(k) => catalog[k].color
    case None => DEFAULT_COLOR
  }

  /** `getColorForGroup`: the colour of some catalog item, or the default. */
  function GetColorForGroup(desc: string): (c: string)
    ensures c == DEFAULT_COLOR || exists k :: 0 <= k < |Constants.ITEMS| && c == Constants.ITEMS[k].color
  {
    var catalog := Constants.ITEMS;
    var lowerDesc := ToLower(desc);
    ColorFromCatalog(catalog, lowerDesc);
    ColorFor(catalog, lowerDesc)
  }

  /** The colour is that of the first item of `catalog` the description
      matches, and the default exactly when it matches none. */
  lemma ColorIsFirstMatch(catalog: seq<ItemDef>, lowerDesc: string, k: nat)
    requires k < |catalog| && ItemMatches(catalog[k], lowerDesc)
    requires forall j :: 0 <= j < k ==> !ItemMatches(catalog[j], lowerDesc)
    ensures ColorFor(catalog, lowerDesc) == catalog[k].color
  {
    var r := FirstMatch(catalog, lowerDesc);
    assert !(r.value < k) && !(k < r.value);
  }

  lemma ColorNoMatch(catalog: seq<ItemDef>, lowerDesc: string)
    requires forall j :: 0 <= j < |catalog| ==> !ItemMatches(catalog[j], lowerDesc)
    ensures ColorFor(catalog, lowerDesc) == DEFAULT_COLOR
  {
  }

  /** Every colour given is a colour of the catalog or the default. */
  lemma ColorFromCatalog(catalog: seq<ItemDef>, lowerDesc: string)
    ensures ColorFor(catalog, lowerDesc) == DEFAULT_COLOR
            || exists k :: 0 <= k < |catalog| && ColorFor(catalog, lowerDesc) == catalog[k].color
  {
    match FirstMatch(catalog, lowerDesc)
    case None =>
    case Some(k) => assert ColorFor(catalog, lowerDesc) == catalog[k].color;
  }

  /** The match ignores the case of the description. */
  lemma ColorIgnoresCase(desc: string)
    ensures GetColorForGroup(ToLower(desc)) == GetColorForGroup(desc)
  {
    ToLowerIdempotent(desc);
  }

  /** A description that speaks of sacks gets the colour of the first
      catalog item, the 50 kg sack. */
  lemma SackColor(desc: string)
    requires Contains(ToLower(desc), "karung")
    ensures GetColorForGroup(desc) == "#d4a373"
  {
    var first := Constants.ITEMS[0];
    assert first.id == "karung" + "_50kg";
    ContainsSelf("karung");
    ContainsAppendLeft("karung", "_50kg", "karung");
    assert ItemMatches(first, ToLower(desc));
  }

  // ---------------------------------------------------------------------
  // Depths
  // ---------------------------------------------------------------------

  /** The reference sum: the tier counts of the first `i` groups. */
  function DepthBefore(groups: seq<TierGroup>, i: nat): real
    requires i <= |groups|
  {
    if i == 0 then 0.0 else DepthBefore(groups, i - 1) + groups[i - 1].tierCount
  }

  /** `reduce((acc, g) => acc + g.tierCount, acc)`. */
  function DepthFrom(acc: real, groups: seq<TierGroup>): real
    decreases |groups|
  {
    if groups == [] then acc else DepthFrom(acc + groups[0].tierCount, groups[1..])
  }

  /** `totalDepth`: the sum of the tier counts of all groups. */
  function TotalDepth(groups: seq<TierGroup>): (d: real)
    ensures d == DepthBefore(groups, |groups|)
  {
    DepthFromIsSum(0.0, groups);
    DepthFrom(0.0, groups)
  }

  lemma {:induction false} DepthBeforeTail(groups: seq<TierGroup>, i: nat)
    requires 0 < |groups| && i < |groups|
    ensures DepthBefore(groups, i + 1) == groups[0].tierCount + DepthBefore(groups[1..], i)
  {
    if i > 0 {
      DepthBeforeTail(groups, i - 1);
    }
  }

  lemma {:induction false} DepthFromIsSum(acc: real, groups: seq<TierGroup>)
    ensures DepthFrom(acc, groups) == acc + DepthBefore(groups, |groups|)
    decreases |groups|
  {
    if groups != [] {
      DepthFromIsSum(acc + groups[0].tierCount, groups[1..]);
      DepthBeforeTail(groups, |groups| - 1);
    }
  }

  /** With no negative tier counts the partial sums grow with the index and
      stay between zero and the total. */
  lemma {:induction false} DepthBeforeMonotone(groups: seq<TierGroup>, i: nat, j: nat)
    requires i <= j <= |groups|
    requires forall k :: 0 <= k < |groups| ==> groups[k].tierCount >= 0.0
    ensures 0.0 <= DepthBefore(groups, i) <= DepthBefore(groups, j)
    decreases j
  {
    if i < j {
      DepthBeforeMonotone(groups, i, j - 1);
    } else if i > 0 {
      DepthBeforeMonotone(groups, i - 1, i - 1);
    }
  }

  /** The `previousDepth` loop of one group: the tier counts of the groups before `index`. */
  method PreviousDepth(groups: seq<TierGroup>, index: nat) returns (previousDepth: real)
    requires index <= |groups|
    ensures previousDepth == DepthBefore(groups, index)
    ensures index == 0 ==> previousDepth == 0.0
    ensures index == |groups| ==> previousDepth == TotalDepth(groups)
  {
    previousDepth := 0.0;
    var i := 0;
    while i < index
      invariant 0 <= i <= index
      invariant previousDepth == DepthBefore(groups, i)
    {
      previousDepth := previousDepth + groups[i].tierCount;
      i := i + 1;
    }
  }

  // ---------------------------------------------------------------------
  // Boxes
  // ---------------------------------------------------------------------

  /** `startY`: the offset of group `i` along the bed, with the whole stack
      centred on zero. */
  function StartY(groups: seq<TierGroup>, i: nat): (y: real)
    requires i <= |groups|
    ensures 0 < i ==> y == StartY(groups, i - 1) + groups[i - 1].tierCount * 25.0
  {
    -((TotalDepth(groups) * SCALE_Z) / 2.0) + DepthBefore(groups, i) * SCALE_Z
  }

  /** The box drawn for one group, in pixels: its width, height, depth along
      the bed, start offset along the bed, lift off the floor, and colour. */
  datatype GroupBox = GroupBox(widthPx: real, heightPx: real, depthPx: real,
                               startY: real, liftZ: real, color: string)

  /** The callback of `tierGroups.map` for group `index`: runs the
      `previousDepth` loop and computes the group's sizes, offset and colour. */
  method GroupLayout(groups: seq<TierGroup>, index: nat) returns (box: GroupBox)
    requires index < |groups|
    ensures box.widthPx == groups[index].tierWidth * 14.0
    ensures box.heightPx == groups[index].tierHeight * 14.0
    ensures box.depthPx == groups[index].tierCount * 25.0
    ensures box.liftZ == box.heightPx / 2.0
    ensures box.startY == StartY(groups, index)
    ensures box.color == GetColorForGroup(groups[index].itemDescription)
  {
    var color := GetColorForGroup(groups[index].itemDescription);
    box := PlaceGroup(groups, index, color);
  }

  /** The geometry of group `index`, drawn in `color`. */
  method PlaceGroup(groups: seq<TierGroup>, index: nat, color: string) returns (box: GroupBox)
    requires index < |groups|
    ensures box.widthPx == groups[index].tierWidth * 14.0
    ensures box.heightPx == groups[index].tierHeight * 14.0
    ensures box.depthPx == groups[index].tierCount * 25.0
    ensures box.liftZ == box.heightPx / 2.0
    ensures box.startY == StartY(groups, index)
    ensures box.color == color
  {
    var totalDepth := TotalDepth(groups);
    var previousDepth := PreviousDepth(groups, index);
    var group := groups[index];
    var groupDepthPx := group.tierCount * SCALE_Z;
    var groupWidthPx := group.tierWidth * SCALE_X;
    var groupHeightPx := group.tierHeight * SCALE_Y;
    var startY := -((totalDepth * SCALE_Z) / 2.0) + (previousDepth * SCALE_Z);
    box := GroupBox(groupWidthPx, groupHeightPx, groupDepthPx, startY, groupHeightPx / 2.0, color);
  }

  /** The first group starts at minus half the stack's length, and the last
      ends at plus half of it: the stack is centred on the floor's middle. */
  lemma StackCentred(groups: seq<TierGroup>)
    requires |groups| > 0
    ensures StartY(groups, 0) == -((TotalDepth(groups) * SCALE_Z) / 2.0)
    ensures StartY(groups, |groups| - 1) + groups[|groups| - 1].tierCount * SCALE_Z
            == (TotalDepth(groups) * SCALE_Z) / 2.0
  {
  }

  /** The floor's length in pixels: `Math.max(totalDepth * SCALE_Z, 300)`. */
  function FloorLength(groups: seq<TierGroup>): (len: real)
    ensures len >= MIN_FLOOR && len >= TotalDepth(groups) * SCALE_Z
    ensures len == MIN_FLOOR || len == TotalDepth(groups) * SCALE_Z
  {
    var d := TotalDepth(groups) * SCALE_Z;
    if d > MIN_FLOOR then d else MIN_FLOOR
  }

  /** The floor is drawn centred on the same middle; with no negative tier
      counts every group lies on it, from end to end. */
  lemma StackOnFloor(groups: seq<TierGroup>, i: nat)
    requires i < |groups|
    requires forall k :: 0 <= k < |groups| ==> groups[k].tierCount >= 0.0
    ensures -(FloorLength(groups) / 2.0) <= StartY(groups, i)
    ensures StartY(groups, i) + groups[i].tierCount * SCALE_Z <= FloorLength(groups) / 2.0
  {
    DepthBeforeMonotone(groups, i, i + 1);
    DepthBeforeMonotone(groups, i + 1, |groups|);
  }
}
