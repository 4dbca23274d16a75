/**
 * Materials. A material's texture slots (`MaterialBindings`) decide its
 * bind group and, through which slots are filled, its shader features; its
 * `MaterialSettings` decide its pipeline. Edits go through guards whose
 * drop bumps the versions the renderer compares: the binding version on
 * every bindings edit, the layout version only when the set of filled
 * slots, or the settings, actually changed. Textures are opaque handles,
 * colours and the uniform block are not modelled.
 */
module Material {
  import opened Wrappers

  /** `MaterialFeatures`, a bit set over these flags. */
  datatype Feature =
    | UseMap | UseNormalMap | UseRoughnessMap | UseMetalnessMap
    | UseEmissiveMap | UseAoMap | UseSpecularMap | UseIbl

  /** The flag's bit in `MaterialFeatures`. */
  function FeatureBit(f: Feature): (bit: nat)
    ensures bit < 256
  {
    match f
    case UseMap => 1
    case UseNormalMap => 2
    case UseRoughnessMap => 4
    case UseMetalnessMap => 8
    case UseEmissiveMap => 16
    case UseAoMap => 32
    case UseSpecularMap => 64
    case UseIbl => 128
  }

  /** Every flag has its own bit, so a flag set and its bit mask determine each other. */
  lemma FeatureBitInjective(f: Feature, g: Feature)
    ensures FeatureBit(f) == FeatureBit(g) <==> f == g
  {
  }

  type TextureSource = nat

  /** `MaterialBindings`: the seven optional texture slots. */
  datatype MaterialBindings = MaterialBindings(
    colorMap: Option<TextureSource>,
    normalMap: Option<TextureSource>,
    roughnessMap: Option<TextureSource>,
    metalnessMap: Option<TextureSource>,
    emissiveMap: Option<TextureSource>,
    aoMap: Option<TextureSource>,
    specularMap: Option<TextureSource>)

  /** `MaterialBindings::default()`: every slot empty. */
  const DEFAULT_BINDINGS: MaterialBindings := MaterialBindings(None, None, None, None, None, None, None)

  /** Which slots are filled, in declaration order. */
  function SlotPresence(b: MaterialBindings): (r: seq<bool>)
    ensures |r| == 7
  {
    [b.colorMap.Some?, b.normalMap.Some?, b.roughnessMap.Some?, b.metalnessMap.Some?,
     b.emissiveMap.Some?, b.aoMap.Some?, b.specularMap.Some?]
  }

  /** The test in `BindingsGuard`'s drop: some slot went from filled to empty or back. */
  predicate LayoutChanged(initial: MaterialBindings, current: MaterialBindings)
  {
    || initial.colorMap.Some? != current.colorMap.Some?
    || initial.normalMap.Some? != current.normalMap.Some?
    || initial.roughnessMap.Some? != current.roughnessMap.Some?
    || initial.metalnessMap.Some? != current.metalnessMap.Some?
    || initial.emissiveMap.Some? != current.emissiveMap.Some?
    || initial.aoMap.Some? != current.aoMap.Some?
    || initial.specularMap.Some? != current.specularMap.Some?
  }

  /** The layout changed exactly when the pattern of filled slots did; swapping one texture for another is no change. */
  lemma LayoutChangedIff(initial: MaterialBindings, current: MaterialBindings)
    ensures LayoutChanged(initial, current) <==> SlotPresence(initial) != SlotPresence(current)
  {
    if SlotPresence(initial) != SlotPresence(current) {
      var k :| 0 <= k < 7 && SlotPresence(initial)[k] != SlotPresence(current)[k];
    }
  }

  datatype Side = Front | Back | Double

  datatype MaterialSettings = MaterialSettings(transparent: bool, depthWrite: bool, depthTest: bool, side: Side)

  /** `MaterialSettings::default()`. */
  function DefaultSettings(): (s: MaterialSettings)
    ensures !s.transparent && s.depthWrite && s.depthTest && s.side == Double
  {
    MaterialSettings(false, true, true, Double)
  }

  /** The fields a material owns that its guards borrow. */
  class MaterialState {
    var bindings: MaterialBindings
    var settings: MaterialSettings
    var bindingVersion: u64
    var layoutVersion: u64

    /** A fresh material: empty slots, default settings, versions 0. */
    constructor ()
      ensures bindings == DEFAULT_BINDINGS && settings == DefaultSettings()
      ensures bindingVersion == 0 && layoutVersion == 0
    {
      bindings := DEFAULT_BINDINGS;
      settings := DefaultSettings();
      bindingVersion := 0;
      layoutVersion := 0;
    }
  }

  /** `BindingsGuard`: remembers the slots as they were when it was taken. */
  class BindingsGuard {
    const state: MaterialState
    const initialLayout: MaterialBindings

    constructor (state: MaterialState)
      ensures this.state == state && initialLayout == state.bindings
    {
      this.state := state;
      initialLayout := state.bindings;
    }

    /** Assignment through `DerefMut`: versions untouched until the drop. */
    method Set(b: MaterialBindings)
      modifies state
      ensures state.bindings == b
      ensures state.settings == old(state.settings)
      ensures state.bindingVersion == old(state.bindingVersion) && state.layoutVersion == old(state.layoutVersion)
    {
      state.bindings := b;
    }

    /** `Drop`: the binding version always goes up by one; the layout version only when the layout changed. */
    method Drop()
      modifies state
      ensures state.bindings == old(state.bindings) && state.settings == old(state.settings)
      ensures state.bindingVersion == WrappingIncU64(old(state.bindingVersion))
      ensures LayoutChanged(initialLayout, state.bindings) ==>
        state.layoutVersion == WrappingIncU64(old(state.layoutVersion))
      ensures !LayoutChanged(initialLayout, state.bindings) ==> state.layoutVersion == old(state.layoutVersion)
    {
      var layoutChanged := LayoutChanged(initialLayout, state.bindings);
      if layoutChanged {
        state.layoutVersion := WrappingIncU64(state.layoutVersion);
      }
      state.bindingVersion := WrappingIncU64(state.bindingVersion);
    }
  }

  /** `SettingsGuard`: remembers the settings as they were when it was taken. */
  class SettingsGuard {
    const state: MaterialState
    const initialSettings: MaterialSettings

    constructor (state: MaterialState)
      ensures this.state == state && initialSettings == state.settings
    {
      this.state := state;
      initialSettings := state.settings;
    }

    method Set(s: MaterialSettings)
      modifies state
      ensures state.settings == s && state.bindings == old(state.bindings)
      ensures state.bindingVersion == old(state.bindingVersion) && state.layoutVersion == old(state.layoutVersion)
    {
      state.settings := s;
    }

    /** `Drop`: the layout version goes up by one exactly when the settings now differ from the initial ones. */
    method Drop()
      modifies state
      ensures state.bindings == old(state.bindings) && state.settings == old(state.settings)
      ensures state.bindingVersion == old(state.bindingVersion)
      ensures state.settings != initialSettings ==> state.layoutVersion == WrappingIncU64(old(state.layoutVersion))
      ensures state.settings == initialSettings ==> state.layoutVersion == old(state.layoutVersion)
    {
      if state.settings != initialSettings {
        state.layoutVersion := WrappingIncU64(state.layoutVersion);
      }
    }
  }

  /** Replacing a texture with another one in a filled slot bumps the binding version but keeps the layout version. */
  method SwapTexture(state: MaterialState, t: TextureSource)
    requires state.bindings.colorMap.Some?
    modifies state
    ensures state.bindings == old(state.bindings).(colorMap := Some(t))
    ensures state.bindingVersion == WrappingIncU64(old(state.bindingVersion))
    ensures state.layoutVersion == old(state.layoutVersion)
  {
    var g := new BindingsGuard(state);
    g.Set(state.bindings.(colorMap := Some(t)));
    g.Drop();
  }

  /** Filling an empty slot bumps both versions. */
  method FillSlot(state: MaterialState, t: TextureSource)
    requires state.bindings.normalMap.None?
    modifies state
    ensures state.bindings == old(state.bindings).(normalMap := Some(t))
    ensures state.bindingVersion == WrappingIncU64(old(state.bindingVersion))
    ensures state.layoutVersion == WrappingIncU64(old(state.layoutVersion))
  {
    var g := new BindingsGuard(state);
    g.Set(state.bindings.(normalMap := Some(t)));
    g.Drop();
  }

  /** Writing settings back unchanged through a guard keeps the layout version. */
  method RewriteSameSettings(state: MaterialState)
    modifies state
    ensures state.settings == old(state.settings) && state.layoutVersion == old(state.layoutVersion)
  {
    var g := new SettingsGuard(state);
    g.Set(state.settings.(transparent := !state.settings.transparent));
    g.Set(g.initialSettings);
    g.Drop();
  }

  datatype MaterialKind = Basic | Phong | Standard | Physical

  /** `MaterialData`: the variant with its slots and settings; uniforms are not modelled. */
  datatype MaterialData = MaterialData(kind: MaterialKind, bindings: MaterialBindings, settings: MaterialSettings)

  /** `shader_name`. */
  function ShaderName(kind: MaterialKind): string
  {
    match kind
    case Basic => "mesh_basic"
    case Phong => "mesh_phong"
    case Standard => "mesh_standard"
    case Physical => "mesh_physical"
  }

  /** Each variant has its own shader template. */
  lemma ShaderNameInjective(a: MaterialKind, b: MaterialKind)
    ensures ShaderName(a) == ShaderName(b) <==> a == b
  {
    if a != b {
      assert ShaderName(a)[7] != ShaderName(b)[7];
    }
  }

  function Flag(slot: Option<TextureSource>, f: Feature): set<Feature>
  {
    if slot.Some? then {f} else {}
  }

  /** `get_features`: the slots each variant looks at, plus IBL for the physically based ones. */
  function GetFeatures(d: MaterialData): (r: set<Feature>)
    ensures UseIbl in r <==> d.kind == Standard || d.kind == Physical
    ensures r <= {UseIbl} + SupportedMaps(d.kind)
  {
    var b := d.bindings;
    match d.kind
    case Basic => Flag(b.colorMap, UseMap)
    case Phong =>
      Flag(b.colorMap, UseMap) + Flag(b.normalMap, UseNormalMap) + Flag(b.specularMap, UseSpecularMap)
      + Flag(b.emissiveMap, UseEmissiveMap)
    case Standard =>
      {UseIbl} + Flag(b.colorMap, UseMap) + Flag(b.normalMap, UseNormalMap) + Flag(b.roughnessMap, UseRoughnessMap)
      + Flag(b.metalnessMap, UseMetalnessMap) + Flag(b.emissiveMap, UseEmissiveMap) + Flag(b.aoMap, UseAoMap)
    case Physical =>
      {UseIbl} + Flag(b.colorMap, UseMap) + Flag(b.normalMap, UseNormalMap) + Flag(b.roughnessMap, UseRoughnessMap)
      + Flag(b.metalnessMap, UseMetalnessMap) + Flag(b.emissiveMap, UseEmissiveMap) + Flag(b.aoMap, UseAoMap)
      + Flag(b.specularMap, UseSpecularMap)
  }

  /** The slot a map flag stands for. */
  function SlotOf(b: MaterialBindings, f: Feature): Option<TextureSource>
    requires f != UseIbl
  {
    match f
    case UseMap => b.colorMap
    case UseNormalMap => b.normalMap
    case UseRoughnessMap => b.roughnessMap
    case UseMetalnessMap => b.metalnessMap
    case UseEmissiveMap => b.emissiveMap
    case UseAoMap => b.aoMap
    case UseSpecularMap => b.specularMap
  }

  /** The map flags a variant's shader supports. */
  function SupportedMaps(kind: MaterialKind): set<Feature>
  {
    match kind
    case Basic => {UseMap}
    case Phong => {UseMap, UseNormalMap, UseSpecularMap, UseEmissiveMap}
    case Standard => {UseMap, UseNormalMap, UseRoughnessMap, UseMetalnessMap, UseEmissiveMap, UseAoMap}
    case Physical => {UseMap, UseNormalMap, UseRoughnessMap, UseMetalnessMap, UseEmissiveMap, UseAoMap, UseSpecularMap}
  }

  /**
   * A flag is set exactly when it is IBL on a Standard or Physical
   * material, or a map the variant supports whose slot is filled.
   */
  lemma GetFeaturesMeaning(d: MaterialData, f: Feature)
    ensures f in GetFeatures(d) <==>
      if f == UseIbl then d.kind == Standard || d.kind == Physical
      else f in SupportedMaps(d.kind) && SlotOf(d.bindings, f).Some?
  {
    match d.kind
    case Basic =>
    case Phong =>
    case Standard =>
    case Physical =>
  }

  /** Only the filled slots matter: materials of one variant with the same slot pattern have the same features. */
  lemma GetFeaturesFollowPresence(d1: MaterialData, d2: MaterialData)
    requires d1.kind == d2.kind && SlotPresence(d1.bindings) == SlotPresence(d2.bindings)
    ensures GetFeatures(d1) == GetFeatures(d2)
  {
    assert SlotPresence(d1.bindings)[0] == SlotPresence(d2.bindings)[0];
    assert SlotPresence(d1.bindings)[1] == SlotPresence(d2.bindings)[1];
    assert SlotPresence(d1.bindings)[2] == SlotPresence(d2.bindings)[2];
    assert SlotPresence(d1.bindings)[3] == SlotPresence(d2.bindings)[3];
    assert SlotPresence(d1.bindings)[4] == SlotPresence(d2.bindings)[4];
    assert SlotPresence(d1.bindings)[5] == SlotPresence(d2.bindings)[5];
    assert SlotPresence(d1.bindings)[6] == SlotPresence(d2.bindings)[6];
  }

  /** So a bindings edit that leaves the layout version alone never changes the shader features. */
  lemma SameLayoutSameFeatures(kind: MaterialKind, settings: MaterialSettings, initial: MaterialBindings,
                               current: MaterialBindings)
    requires !LayoutChanged(initial, current)
    ensures GetFeatures(MaterialData(kind, initial, settings)) == GetFeatures(MaterialData(kind, current, settings))
  {
    LayoutChangedIff(initial, current);
    GetFeaturesFollowPresence(MaterialData(kind, initial, settings), MaterialData(kind, current, settings));
  }

  /** `Material`; the random v4 uuid is a parameter. */
  datatype MaterialValue = MaterialValue(uuid: nat, name: Option<string>, data: MaterialData)

  /** `Material::new`, and through it `new_basic` … `new_physical`: empty slots, default settings, no name. */
  function NewMaterial(uuid: nat, kind: MaterialKind): (m: MaterialValue)
    ensures m.uuid == uuid && m.name.None? && m.data.kind == kind
    ensures m.data.bindings == DEFAULT_BINDINGS && m.data.settings == DefaultSettings()
  {
    MaterialValue(uuid, None, MaterialData(kind, DEFAULT_BINDINGS, DefaultSettings()))
  }

  /** A new material has only the IBL flag, and only when it is physically based. */
  lemma NewMaterialFeatures(uuid: nat, kind: MaterialKind)
    ensures GetFeatures(NewMaterial(uuid, kind).data) == if kind == Standard || kind == Physical then {UseIbl} else {}
  {
  }

  /** `as_basic`, `as_phong`, `as_standard`, `as_physical`: the data when the variant matches. */
  function AsKind(m: MaterialValue, kind: MaterialKind): (r: Option<MaterialData>)
    ensures r.Some? <==> m.data.kind == kind
    ensures r.Some? ==> r.value == m.data
  {
    if m.data.kind == kind then Some(m.data) else None
  }
}
