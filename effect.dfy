/**
 * The hardware path's effect wrapper, reduced to its two mode cycles.  The
 * D3DX effect is abstracted: a technique is identified by the name it is
 * looked up with, and the rasterizer state bound to the effect's
 * `gRasterizerState` variable is a value holding its description.
 */
module Effect {

  datatype FilteringMethod = Point | Linear | Anisotropic

  function FilteringIndex(m: FilteringMethod): nat {
    match m
    case Point => 0
    case Linear => 1
    case Anisotropic => 2
  }

  function FilteringFromIndex(i: nat): FilteringMethod
    requires i < 3
  {
    if i == 0 then Point else if i == 1 then Linear else Anisotropic
  }

  /** `(m + 1) % (ANISOTROPIC + 1)` on the enum's underlying integers. */
  function NextFilteringMethod(m: FilteringMethod): (r: FilteringMethod)
    ensures m == Point ==> r == Linear
    ensures m == Linear ==> r == Anisotropic
    ensures m == Anisotropic ==> r == Point
  {
    FilteringFromIndex((FilteringIndex(m) + 1) % (FilteringIndex(Anisotropic) + 1))
  }

  /** Three steps return to the starting method, and no fewer do. */
  lemma FilteringCycleHasPeriodThree(m: FilteringMethod)
    ensures NextFilteringMethod(NextFilteringMethod(NextFilteringMethod(m))) == m
    ensures NextFilteringMethod(m) != m && NextFilteringMethod(NextFilteringMethod(m)) != m
  {
  }

  /** The technique name looked up for each filtering method. */
  function TechniqueName(m: FilteringMethod): string {
    match m
    case Point => "PointFilteringTechnique"
    case Linear => "LinearFilteringTechnique"
    case Anisotropic => "AnisotropicFilteringTechnique"
  }

  lemma TechniqueNamesDistinct(a: FilteringMethod, b: FilteringMethod)
    ensures TechniqueName(a) == TechniqueName(b) <==> a == b
  {
  }

  datatype CullMode = Off | Front | Back

  function CullIndex(m: CullMode): nat {
    match m
    case Off => 0
    case Front => 1
    case Back => 2
  }

  function CullFromIndex(i: nat): CullMode
    requires i < 3
  {
    if i == 0 then Off else if i == 1 then Front else Back
  }

  /** `(m + 1) % (Back + 1)` on the enum's underlying integers. */
  function NextCullMode(m: CullMode): (r: CullMode)
    ensures m == Off ==> r == Front
    ensures m == Front ==> r == Back
    ensures m == Back ==> r == Off
  {
    CullFromIndex((CullIndex(m) + 1) % (CullIndex(Back) + 1))
  }

  lemma CullCycleHasPeriodThree(m: CullMode)
    ensures NextCullMode(NextCullMode(NextCullMode(m))) == m
    ensures NextCullMode(m) != m && NextCullMode(NextCullMode(m)) != m
  {
  }

  /** The graphics API's cull values. */
  datatype D3DCull = CullNone | CullFront | CullBack

  function CullToD3D(m: CullMode): (c: D3DCull)
    ensures m == Off <==> c == CullNone
    ensures m == Front <==> c == CullFront
    ensures m == Back <==> c == CullBack
  {
    match m
    case Off => CullNone
    case Front => CullFront
    case Back => CullBack
  }

  /** A rasterizer description, reduced to the field the effect changes. */
  datatype RasterizerDesc = RasterizerDesc(cullMode: D3DCull)

  /** A rasterizer state object: immutable once created, with its description. */
  datatype RasterizerState = RasterizerState(desc: RasterizerDesc)

  class Effect {
    var filteringMethod: FilteringMethod
    /** The selected technique, by the name it was looked up with. */
    var technique: string
    var cullMode: CullMode
    /** The state bound to the effect's rasterizer-state variable, slot 0. */
    var rasterizerState: RasterizerState

    /** The selected technique always belongs to the current filtering method. */
    ghost predicate Valid()
      reads this
    {
      technique == TechniqueName(filteringMethod)
    }

    /** A fresh effect filters by point with the point technique.  The initial
        cull mode and the state in the effect file are the caller's. */
    constructor (initialCullMode: CullMode, initialState: RasterizerState)
      ensures Valid()
      ensures filteringMethod == Point && technique == "PointFilteringTechnique"
      ensures cullMode == initialCullMode && rasterizerState == initialState
    {
      filteringMethod := Point;
      technique := "PointFilteringTechnique";
      cullMode := initialCullMode;
      rasterizerState := initialState;
    }

    method CycleFilteringMethod()
      requires Valid()
      modifies this
      ensures Valid()
      ensures filteringMethod == NextFilteringMethod(old(filteringMethod))
      ensures technique == TechniqueName(filteringMethod)
      ensures cullMode == old(cullMode) && rasterizerState == old(rasterizerState)
    {
      filteringMethod := NextFilteringMethod(filteringMethod);
      technique := TechniqueName(filteringMethod);
    }

    /** The cull-mode cycle as the source writes it: the new cull value goes
        into a local copy of the description only, and the state object that
        was fetched is set back unchanged. */
    method CycleCullModeAsWritten()
      modifies this
      ensures cullMode == NextCullMode(old(cullMode))
      ensures rasterizerState == old(rasterizerState)
      ensures filteringMethod == old(filteringMethod) && technique == old(technique)
    {
      var state := rasterizerState;
      var desc := state.desc;
      cullMode := NextCullMode(cullMode);
      desc := desc.(cullMode := CullToD3D(cullMode));
      rasterizerState := state;
    }

    /** The cull-mode cycle as intended: the edited description becomes the
        bound state, so the rasterizer culls by the new mode. */
    method CycleCullMode()
      modifies this
      ensures cullMode == NextCullMode(old(cullMode))
      ensures rasterizerState.desc.cullMode == CullToD3D(cullMode)
      ensures filteringMethod == old(filteringMethod) && technique == old(technique)
    {
      var desc := rasterizerState.desc;
      cullMode := NextCullMode(cullMode);
      desc := desc.(cullMode := CullToD3D(cullMode));
      rasterizerState := RasterizerState(desc);
    }
  }

  /** Three filtering cycles bring an effect back to its method and technique. */
  method CycleFilteringThrice(e: Effect)
    requires e.Valid()
    modifies e
    ensures e.Valid()
    ensures e.filteringMethod == old(e.filteringMethod) && e.technique == old(e.technique)
  {
    e.CycleFilteringMethod();
    e.CycleFilteringMethod();
    e.CycleFilteringMethod();
    FilteringCycleHasPeriodThree(old(e.filteringMethod));
  }

  /** An effect created with culling off and a no-cull state: after one cycle
      as written the effect reports Front while the bound state still culls
      nothing. */
  method CullModeNotApplied() returns (e: Effect)
    ensures e.cullMode == Front
    ensures e.rasterizerState.desc.cullMode == CullNone
    ensures e.rasterizerState.desc.cullMode != CullToD3D(e.cullMode)
  {
    e := new Effect(Off, RasterizerState(RasterizerDesc(CullNone)));
    e.CycleCullModeAsWritten();
  }
}
