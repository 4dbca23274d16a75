/**
 * Geometry: named vertex attributes, an optional index attribute and three
 * version counters the renderer compares. The layout version moves only
 * when the vertex layout may have changed (an attribute added or removed,
 * or its format or step mode changed); the structure version when buffers
 * were replaced; the data version when bytes changed. The shader defines
 * derived from the attribute names are cached under the layout version.
 *
 * An `Attribute` is a value: the source shares its bytes through an `Arc`
 * and writes with copy-on-write (`Arc::make_mut`), which behaves exactly
 * like a value. Attribute versions come from a process-wide counter.
 */
module Geometry {
  import opened Wrappers
  import opened Buffer
  import opened Vertex

  /** `NEXT_ATTR_VERSION`, starting at 1; `fetch_add` wraps at 2^64. */
  class AttrVersionCounter {
    var next: u64

    constructor ()
      ensures next == 1
    {
      next := 1;
    }

    method Fetch() returns (v: u64)
      modifies this
      ensures v == old(next) && next == WrappingIncU64(old(next))
    {
      v := next;
      next := WrappingIncU64(next);
    }
  }

  /** wgpu buffer usage bits: COPY_DST = 8, INDEX = 16, VERTEX = 32. */
  const VERTEX_COPY_DST: nat := 32 + 8
  const INDEX_COPY_DST: nat := 16 + 8

  datatype Attribute = Attribute(
    buffer: BufferRef,
    data: Option<seq<u8>>,
    version: u64,
    format: VertexFormat,
    offset: nat,
    count: u32,
    stride: nat,
    stepMode: StepMode)

  /** `new_planar` / `new_instanced`: `elementCount` elements of `elementSize` bytes, from offset 0. */
  method NewAttribute(ids: BufferIdCounter, versions: AttrVersionCounter, bytes: seq<u8>, elementCount: nat,
                      elementSize: nat, format: VertexFormat, stepMode: StepMode) returns (a: Attribute)
    modifies ids, versions
    ensures a.buffer == BufferRef(old(ids.next), VERTEX_COPY_DST, |bytes|, 0)
    ensures a.data == Some(bytes) && a.version == old(versions.next) && a.format == format && a.offset == 0
    ensures a.count as int == elementCount % U32_MODULUS && a.stride == elementSize && a.stepMode == stepMode
    ensures ids.next == WrappingIncU64(old(ids.next)) && versions.next == WrappingIncU64(old(versions.next))
  {
    var buffer := NewBufferRef(ids, |bytes|, VERTEX_COPY_DST);
    var version := versions.Fetch();
    a := Attribute(buffer, Some(bytes), version, format, 0, (elementCount % U32_MODULUS) as u32, elementSize, stepMode);
  }

  /**
   * `update_data`: without CPU data nothing changes; otherwise the bytes
   * are replaced wholesale, the count is the new element count (truncated
   * to `u32`) and a new version is drawn. The buffer handle is kept.
   */
  method UpdateData(a: Attribute, versions: AttrVersionCounter, newBytes: seq<u8>, newCount: nat) returns (r: Attribute)
    modifies versions
    ensures a.data.None? ==> r == a && versions.next == old(versions.next)
    ensures a.data.Some? ==> r == a.(data := Some(newBytes), count := (newCount % U32_MODULUS) as u32,
                                     version := old(versions.next))
    ensures a.data.Some? ==> versions.next == WrappingIncU64(old(versions.next))
  {
    if a.data.None? {
      return a;
    }
    var v := versions.Fetch();
    r := a.(data := Some(newBytes), count := (newCount % U32_MODULUS) as u32, version := v);
  }

  /** A region write that fits: the bytes in `[start, start + |bytes|)` replaced, the rest kept. */
  function Overwrite(data: seq<u8>, start: nat, bytes: seq<u8>): (r: seq<u8>)
    requires start + |bytes| <= |data|
    ensures |r| == |data|
    ensures forall k :: 0 <= k < |data| && !(start <= k < start + |bytes|) ==> r[k] == data[k]
    ensures forall k :: 0 <= k < |bytes| ==> r[start + k] == bytes[k]
  {
    data[..start] + bytes + data[start + |bytes|..]
  }

  /** The region lies within the attribute's data. */
  predicate RegionFits(a: Attribute, offsetBytes: u64, bytes: seq<u8>)
  {
    a.data.Some? && offsetBytes as int + |bytes| <= |a.data.value|
  }

  /**
   * `update_region`: writes and draws a new version only when the region
   * ends within the data; an out-of-bounds region or missing data changes
   * nothing.
   */
  method UpdateRegion(a: Attribute, versions: AttrVersionCounter, offsetBytes: u64, bytes: seq<u8>) returns (r: Attribute)
    modifies versions
    ensures RegionFits(a, offsetBytes, bytes) ==>
      r == a.(data := Some(Overwrite(a.data.value, offsetBytes as int, bytes)), version := old(versions.next))
      && versions.next == WrappingIncU64(old(versions.next))
    ensures !RegionFits(a, offsetBytes, bytes) ==>
      r == a && versions.next == old(versions.next)
  {
    r := a;
    if a.data.Some? {
      var start := offsetBytes as int;
      var end := start + |bytes|;
      if end <= |a.data.value| {
        var v := versions.Fetch();
        r := a.(data := Some(Overwrite(a.data.value, start, bytes)), version := v);
      }
    }
  }

  /** `read`: the `size` bytes of element `i`, when they lie within the data. */
  function ReadElement(a: Attribute, i: u32, size: nat): (r: Option<seq<u8>>)
    ensures r.Some? <==> a.data.Some? && a.offset + i as int * a.stride + size <= |a.data.value|
    ensures r.Some? ==> |r.value| == size
    ensures r.Some? ==> forall k :: 0 <= k < size ==> r.value[k] == a.data.value[a.offset + i as int * a.stride + k]
  {
    var start := a.offset + i as int * a.stride;
    if a.data.Some? && start + size <= |a.data.value| then Some(a.data.value[start..start + size]) else None
  }

  /** `read_vec3`: the 12 bytes of three `f32`s, only for a `Float32x3` attribute. */
  function ReadVec3(a: Attribute, i: u32): (r: Option<seq<u8>>)
    ensures a.format != Float32x3 ==> r.None?
    ensures a.format == Float32x3 ==> r == ReadElement(a, i, 12)
  {
    if a.format != Float32x3 then None else ReadElement(a, i, 12)
  }

  /** `read_vec4`: the 16 bytes of four `f32`s, only for a `Float32x4` attribute. */
  function ReadVec4(a: Attribute, i: u32): (r: Option<seq<u8>>)
    ensures a.format != Float32x4 ==> r.None?
    ensures a.format == Float32x4 ==> r == ReadElement(a, i, 16)
  {
    if a.format != Float32x4 then None else ReadElement(a, i, 16)
  }

  /** Reading back a region just written with `update_region` yields the written bytes. */
  lemma ReadAfterUpdateRegion(a: Attribute, start: nat, bytes: seq<u8>, i: u32, size: nat)
    requires a.data.Some? && start + |bytes| <= |a.data.value|
    requires start <= a.offset + i as int * a.stride
    requires a.offset + i as int * a.stride + size <= start + |bytes|
    ensures var b := a.(data := Some(Overwrite(a.data.value, start, bytes)));
      ReadElement(b, i, size) == Some(bytes[a.offset + i as int * a.stride - start..a.offset + i as int * a.stride - start + size])
  {
    var at := a.offset + i as int * a.stride;
    var w := Overwrite(a.data.value, start, bytes);
    assert w[at..at + size] == bytes[at - start..at - start + size] by {
      forall j | at <= j < at + size ensures w[j] == bytes[j - start] {
        assert w[start + (j - start)] == bytes[j - start];
      }
    }
  }

  /** The two little-endian bytes of a 16-bit value. */
  function U16Le(x: u16): (r: seq<u8>)
    ensures |r| == 2 && r[0] as int + 256 * r[1] as int == x as int
  {
    [(x % 256) as u8, (x / 256) as u8]
  }

  /** The four little-endian bytes of a 32-bit value. */
  function U32Le(x: u32): (r: seq<u8>)
    ensures |r| == 4
    ensures r[0] as int + 256 * r[1] as int + 65536 * r[2] as int + 16777216 * r[3] as int == x as int
  {
    var q0 := x as int / 256;
    var q1 := q0 / 256;
    assert x as int == q0 * 256 + x as int % 256;
    assert q0 == q1 * 256 + q0 % 256;
    assert q1 == (q1 / 256) * 256 + q1 % 256;
    [(x % 256) as u8, (q0 % 256) as u8, (q1 % 256) as u8, (q1 / 256) as u8]
  }

  /** Indices laid out as `bytemuck::cast_slice` does on a little-endian target: 2 bytes each. */
  function U16Bytes(xs: seq<u16>): (r: seq<u8>)
    ensures |r| == 2 * |xs|
    decreases |xs|
  {
    if xs == [] then [] else U16Bytes(xs[..|xs| - 1]) + U16Le(xs[|xs| - 1])
  }

  /** 4 bytes each. */
  function U32Bytes(xs: seq<u32>): (r: seq<u8>)
    ensures |r| == 4 * |xs|
    decreases |xs|
  {
    if xs == [] then [] else U32Bytes(xs[..|xs| - 1]) + U32Le(xs[|xs| - 1])
  }

  /** Index `i` occupies bytes `[2i, 2i + 2)`. */
  lemma {:induction false} U16BytesAt(xs: seq<u16>, i: nat)
    requires i < |xs|
    ensures U16Bytes(xs)[2 * i..2 * i + 2] == U16Le(xs[i])
    decreases |xs|
  {
    var p := xs[..|xs| - 1];
    if i < |xs| - 1 {
      U16BytesAt(p, i);
      assert U16Bytes(xs)[2 * i..2 * i + 2] == U16Bytes(p)[2 * i..2 * i + 2];
    } else {
      assert U16Bytes(xs)[2 * i..2 * i + 2] == U16Bytes(xs)[|U16Bytes(p)|..];
    }
  }

  /** Index `i` occupies bytes `[4i, 4i + 4)`. */
  lemma {:induction false} U32BytesAt(xs: seq<u32>, i: nat)
    requires i < |xs|
    ensures U32Bytes(xs)[4 * i..4 * i + 4] == U32Le(xs[i])
    decreases |xs|
  {
    var p := xs[..|xs| - 1];
    if i < |xs| - 1 {
      U32BytesAt(p, i);
      assert U32Bytes(xs)[4 * i..4 * i + 4] == U32Bytes(p)[4 * i..4 * i + 4];
    } else {
      assert U32Bytes(xs)[4 * i..4 * i + 4] == U32Bytes(xs)[|U32Bytes(p)|..];
    }
  }

  /** `name.to_uppercase()` restricted to ASCII: only 'a'..'z' are upper-cased, every other character is kept. */
  function ToUpper(s: string): (r: string)
    ensures |r| == |s|
    decreases |s|
  {
    if s == [] then [] else [UpperChar(s[0])] + ToUpper(s[1..])
  }

  function UpperChar(c: char): char
  {
    if 'a' <= c <= 'z' then (c as int - 32) as char else c
  }

  /** The macro an attribute name defines. */
  function Macro(name: string): string
  {
    "HAS_" + ToUpper(name)
  }

  /** One `HAS_<NAME>` define, valued "1", per attribute name. */
  function AttributeDefines(names: set<string>): map<string, string>
  {
    map n | n in names :: Macro(n) := "1"
  }

  /** What `shader_defines` computes from the attribute names and the morph-target state. */
  function DefinesOf(names: set<string>, hasMorphTargets: bool, morphNormals: bool, morphTangents: bool)
    : map<string, string>
  {
    WithFlags(AttributeDefines(names), hasMorphTargets, hasMorphTargets && morphNormals,
              hasMorphTargets && morphTangents, "joints" in names && "weights" in names)
  }

  /** The attribute defines with the morph and skinning flags added, in the order the source inserts them. */
  function WithFlags(m: map<string, string>, morph: bool, normals: bool, tangents: bool, skinning: bool)
    : map<string, string>
  {
    var withMorph := if morph then m["HAS_MORPH_TARGETS" := "1"] else m;
    var withNormals := if normals then withMorph["HAS_MORPH_NORMALS" := "1"] else withMorph;
    var withTangents := if tangents then withNormals["HAS_MORPH_TANGENTS" := "1"] else withNormals;
    if skinning then withTangents["SUPPORT_SKINNING" := "1"] else withTangents
  }

  /** A key is in the layered map exactly when it was in the base or is a flag that was set; flags are valued "1". */
  lemma WithFlagsMeaning(m: map<string, string>, morph: bool, normals: bool, tangents: bool, skinning: bool, k: string)
    ensures k in WithFlags(m, morph, normals, tangents, skinning) <==>
      || k in m
      || (morph && k == "HAS_MORPH_TARGETS")
      || (normals && k == "HAS_MORPH_NORMALS")
      || (tangents && k == "HAS_MORPH_TANGENTS")
      || (skinning && k == "SUPPORT_SKINNING")
    ensures k in WithFlags(m, morph, normals, tangents, skinning) && (k in m ==> m[k] == "1") ==>
      WithFlags(m, morph, normals, tangents, skinning)[k] == "1"
    ensures (k in m && k != "HAS_MORPH_TARGETS" && k != "HAS_MORPH_NORMALS" && k != "HAS_MORPH_TANGENTS"
             && k != "SUPPORT_SKINNING") ==> WithFlags(m, morph, normals, tangents, skinning)[k] == m[k]
  {
  }

  lemma AttributeDefinesAdd(names: set<string>, n: string)
    ensures AttributeDefines(names + {n}) == AttributeDefines(names)[Macro(n) := "1"]
  {
    var l, r := AttributeDefines(names + {n}), AttributeDefines(names)[Macro(n) := "1"];
    forall k | k in l ensures k in r {
      var m :| m in names + {n} && k == Macro(m);
      if m != n {
        assert k in AttributeDefines(names);
      }
    }
    forall k | k in r ensures k in l {
      if k != Macro(n) {
        var m :| m in names && k == Macro(m);
        assert m in names + {n};
      }
    }
  }

  lemma AttributeDefinesMeaning(names: set<string>, k: string)
    ensures k in AttributeDefines(names) ==> AttributeDefines(names)[k] == "1"
    ensures k in AttributeDefines(names) <==> exists n :: n in names && k == Macro(n)
  {
  }

  /**
   * Every define is valued "1" and is one of: `HAS_<NAME>` for an
   * attribute, a morph define when the geometry has morph targets (the
   * normal and tangent ones only when those buffers exist), or
   * `SUPPORT_SKINNING`.
   */
  lemma DefinesMeaning(names: set<string>, hasMorph: bool, normals: bool, tangents: bool, k: string)
    ensures k in DefinesOf(names, hasMorph, normals, tangents) ==> DefinesOf(names, hasMorph, normals, tangents)[k] == "1"
    ensures k in DefinesOf(names, hasMorph, normals, tangents) <==>
      || k in AttributeDefines(names)
      || (hasMorph && k == "HAS_MORPH_TARGETS")
      || (hasMorph && normals && k == "HAS_MORPH_NORMALS")
      || (hasMorph && tangents && k == "HAS_MORPH_TANGENTS")
      || ("joints" in names && "weights" in names && k == "SUPPORT_SKINNING")
  {
    AttributeDefinesMeaning(names, k);
    WithFlagsMeaning(AttributeDefines(names), hasMorph, hasMorph && normals, hasMorph && tangents,
                     "joints" in names && "weights" in names, k);
  }

  /** Each attribute defines `HAS_` followed by its upper-cased name. */
  lemma AttributeDefined(names: set<string>, hasMorph: bool, normals: bool, tangents: bool, n: string)
    requires n in names
    ensures Macro(n) in DefinesOf(names, hasMorph, normals, tangents)
    ensures DefinesOf(names, hasMorph, normals, tangents)[Macro(n)] == "1"
  {
    DefinesMeaning(names, hasMorph, normals, tangents, Macro(n));
    AttributeDefinesMeaning(names, Macro(n));
  }

  /** Skinning is enabled exactly when both a "joints" and a "weights" attribute exist. */
  lemma SupportSkinningIff(names: set<string>, hasMorph: bool, normals: bool, tangents: bool)
    ensures "SUPPORT_SKINNING" in DefinesOf(names, hasMorph, normals, tangents) <==> "joints" in names && "weights" in names
  {
    DefinesMeaning(names, hasMorph, normals, tangents, "SUPPORT_SKINNING");
    AttributeDefinesMeaning(names, "SUPPORT_SKINNING");
    forall n | n in names ensures Macro(n) != "SUPPORT_SKINNING" {
      assert Macro(n)[0] == 'H';
    }
  }

  /** The defines of a geometry depend on its attribute names only through the layout: re-setting a name keeps them. */
  lemma DefinesIgnoreReplacement(attrs: map<string, Attribute>, name: string, a: Attribute,
                                 hasMorph: bool, normals: bool, tangents: bool)
    requires name in attrs
    ensures DefinesOf(attrs[name := a].Keys, hasMorph, normals, tangents) == DefinesOf(attrs.Keys, hasMorph, normals, tangents)
  {
    assert attrs[name := a].Keys == attrs.Keys;
  }

  /** The attribute names and morph-target state the defines are computed from. */
  datatype DefinesInputs = DefinesInputs(names: set<string>, hasMorph: bool, normals: bool, tangents: bool)

  /** `set_attribute`'s test: a new name, or a different format or step mode. */
  predicate AttributeLayoutChanged(attrs: map<string, Attribute>, name: string, a: Attribute)
  {
    name in attrs ==> attrs[name].format != a.format || attrs[name].stepMode != a.stepMode
  }

  /** The `cached_shader_defines` cell: the layout version and the defines computed under it. */
  class DefinesCache {
    var entry: Option<(u64, map<string, string>)>
    /** The geometry's layout-change count when the entry was filled. */
    ghost var bumps: nat
    /** What the entry's defines were computed from. */
    ghost var inputs: DefinesInputs

    ghost predicate Valid()
      reads this
    {
      entry.Some? ==> entry.value.1 == DefinesOf(inputs.names, inputs.hasMorph, inputs.normals, inputs.tangents)
    }

    constructor ()
      ensures Valid() && entry.None?
    {
      entry := None;
      bumps := 0;
      inputs := DefinesInputs({}, false, false, false);
    }

    method Fill(version: u64, defines: map<string, string>, ghost bumps: nat, ghost inputs: DefinesInputs)
      requires defines == DefinesOf(inputs.names, inputs.hasMorph, inputs.normals, inputs.tangents)
      modifies this
      ensures Valid() && entry == Some((version, defines)) && this.bumps == bumps && this.inputs == inputs
    {
      entry := Some((version, defines));
      this.bumps := bumps;
      this.inputs := inputs;
    }
  }

  class Geometry {
    const uuid: nat
    var layoutVersion: u64
    var structureVersion: u64
    var dataVersion: u64
    var attributes: map<string, Attribute>
    var indexAttribute: Option<Attribute>
    var morphTargetCount: u32
    var morphPositionBuffer: Option<BufferRef>
    var morphNormalBuffer: Option<BufferRef>
    var morphTangentBuffer: Option<BufferRef>
    const cache: DefinesCache
    /** How many times the layout version was bumped, without wrapping. */
    ghost var layoutBumps: nat

    /**
     * The layout version counts layout changes modulo 2^64, and cached
     * defines computed since the last layout change are those of the
     * current attributes.
     */
    ghost predicate Valid()
      reads this, cache
    {
      && layoutVersion as int == layoutBumps % U64_MODULUS
      && (cache.entry.Some? ==>
          && cache.bumps <= layoutBumps
          && cache.entry.value.0 as int == cache.bumps % U64_MODULUS
          && (cache.bumps == layoutBumps ==> cache.inputs == Inputs()))
    }

    /** The cache was not filled a whole 2^64 layout changes ago. */
    ghost predicate NotWrapped()
      reads this, cache
    {
      cache.entry.Some? ==> layoutBumps < cache.bumps + U64_MODULUS
    }

    function HasMorphTargets(): (r: bool)
      reads this
      ensures r <==> morphTargetCount > 0 && morphPositionBuffer.Some?
    {
      morphTargetCount > 0 && morphPositionBuffer.Some?
    }

    /** The morph-target fields, which only the morph-buffer builder changes. */
    function MorphState(): (u32, Option<BufferRef>, Option<BufferRef>, Option<BufferRef>)
      reads this
    {
      (morphTargetCount, morphPositionBuffer, morphNormalBuffer, morphTangentBuffer)
    }

    /** What the defines are computed from. */
    ghost function Inputs(): DefinesInputs
      reads this
    {
      DefinesInputs(attributes.Keys, HasMorphTargets(), morphNormalBuffer.Some?, morphTangentBuffer.Some?)
    }

    ghost function CurrentDefines(): map<string, string>
      reads this
    {
      DefinesOf(attributes.Keys, HasMorphTargets(), morphNormalBuffer.Some?, morphTangentBuffer.Some?)
    }

    /** `new`: no attributes, versions 0, no cache. */
    constructor (uuid: nat)
      ensures Valid() && this.uuid == uuid
      ensures attributes == map[] && indexAttribute.None? && fresh(cache) && cache.entry.None?
      ensures layoutVersion == 0 && structureVersion == 0 && dataVersion == 0
      ensures morphTargetCount == 0 && morphPositionBuffer.None? && morphNormalBuffer.None? && morphTangentBuffer.None?
    {
      this.uuid := uuid;
      layoutVersion, structureVersion, dataVersion := 0, 0, 0;
      attributes := map[];
      indexAttribute := None;
      morphTargetCount := 0;
      morphPositionBuffer, morphNormalBuffer, morphTangentBuffer := None, None, None;
      cache := new DefinesCache();
      layoutBumps := 0;
    }

    function GetAttribute(name: string): (r: Option<Attribute>)
      reads this
      ensures r.Some? <==> name in attributes
      ensures r.Some? ==> r.value == attributes[name]
    {
      if name in attributes then Some(attributes[name]) else None
    }

    method BumpLayout()
      requires Valid()
      modifies this
      ensures Valid()
      ensures layoutVersion == WrappingIncU64(old(layoutVersion)) && layoutBumps == old(layoutBumps) + 1
      ensures attributes == old(attributes) && indexAttribute == old(indexAttribute)
      ensures structureVersion == old(structureVersion) && dataVersion == old(dataVersion)
      ensures morphTargetCount == old(morphTargetCount) && morphPositionBuffer == old(morphPositionBuffer)
      ensures morphNormalBuffer == old(morphNormalBuffer) && morphTangentBuffer == old(morphTangentBuffer)
    {
      layoutVersion := WrappingIncU64(layoutVersion);
      layoutBumps := layoutBumps + 1;
    }

    /**
     * `set_attribute`: stores the attribute under the name; structure and
     * data versions always go up, the layout version exactly when the
     * name is new or its format or step mode differ.
     */
    method SetAttribute(name: string, a: Attribute)
      requires Valid()
      modifies this
      ensures Valid()
      ensures !AttributeLayoutChanged(old(attributes), name, a) ==> NotWrapped() == old(NotWrapped())
      ensures attributes == old(attributes)[name := a]
      ensures AttributeLayoutChanged(old(attributes), name, a) ==>
        layoutVersion == WrappingIncU64(old(layoutVersion))
      ensures !AttributeLayoutChanged(old(attributes), name, a) ==> layoutVersion == old(layoutVersion)
      ensures structureVersion == WrappingIncU64(old(structureVersion))
      ensures dataVersion == WrappingIncU64(old(dataVersion))
      ensures indexAttribute == old(indexAttribute)
      ensures morphTargetCount == old(morphTargetCount) && morphPositionBuffer == old(morphPositionBuffer)
      ensures morphNormalBuffer == old(morphNormalBuffer) && morphTangentBuffer == old(morphTangentBuffer)
    {
      var layoutChanged := AttributeLayoutChanged(attributes, name, a);
      if !layoutChanged {
        assert attributes[name := a].Keys == attributes.Keys;
      }
      if layoutChanged {
        BumpLayout();
      }
      attributes := attributes[name := a];
      structureVersion := WrappingIncU64(structureVersion);
      dataVersion := WrappingIncU64(dataVersion);
    }

    /**
     * `remove_attribute`: a present name is removed and returned, and the
     * layout and structure versions go up; an absent name changes nothing.
     */
    method RemoveAttribute(name: string) returns (removed: Option<Attribute>)
      requires Valid()
      modifies this
      ensures Valid()
      ensures removed.Some? <==> name in old(attributes)
      ensures removed.Some? ==> removed.value == old(attributes)[name]
      ensures attributes == old(attributes) - {name}
      ensures removed.Some? ==> layoutVersion == WrappingIncU64(old(layoutVersion))
      ensures removed.Some? ==> structureVersion == WrappingIncU64(old(structureVersion))
      ensures removed.None? ==> layoutVersion == old(layoutVersion) && structureVersion == old(structureVersion)
      ensures removed.None? ==> NotWrapped() == old(NotWrapped())
      ensures dataVersion == old(dataVersion) && indexAttribute == old(indexAttribute) && MorphState() == old(MorphState())
    {
      if name in attributes {
        removed := Some(attributes[name]);
        BumpLayout();
        attributes := attributes - {name};
        structureVersion := WrappingIncU64(structureVersion);
      } else {
        removed := None;
        assert attributes - {name} == attributes;
      }
    }

    /** `get_attribute_mut`: the data version goes up (the source's `+= 1`, which wraps in release builds). */
    method GetAttributeMut(name: string) returns (r: Option<Attribute>)
      requires Valid()
      modifies this
      ensures Valid() && NotWrapped() == old(NotWrapped())
      ensures r == old(GetAttribute(name))
      ensures dataVersion == WrappingIncU64(old(dataVersion))
      ensures attributes == old(attributes) && layoutVersion == old(layoutVersion)
      ensures structureVersion == old(structureVersion) && indexAttribute == old(indexAttribute)
      ensures MorphState() == old(MorphState())
    {
      dataVersion := WrappingIncU64(dataVersion);
      r := GetAttribute(name);
    }

    /** `index_attribute_mut`: structure and data versions go up. */
    method IndexAttributeMut() returns (r: Option<Attribute>)
      requires Valid()
      modifies this
      ensures Valid() && NotWrapped() == old(NotWrapped())
      ensures r == old(indexAttribute)
      ensures structureVersion == WrappingIncU64(old(structureVersion))
      ensures dataVersion == WrappingIncU64(old(dataVersion))
      ensures attributes == old(attributes) && layoutVersion == old(layoutVersion) && indexAttribute == old(indexAttribute)
      ensures MorphState() == old(MorphState())
    {
      structureVersion := WrappingIncU64(structureVersion);
      dataVersion := WrappingIncU64(dataVersion);
      r := indexAttribute;
    }

    /**
     * `set_indices`: a fresh index buffer of 16-bit indices, stride 2,
     * format `Uint16`, count the number of indices; structure and data
     * versions go up, the layout version does not.
     */
    method SetIndices(ids: BufferIdCounter, versions: AttrVersionCounter, indices: seq<u16>)
      requires Valid()
      modifies this, ids, versions
      ensures Valid() && NotWrapped() == old(NotWrapped())
      ensures indexAttribute == Some(Attribute(BufferRef(old(ids.next), INDEX_COPY_DST, 2 * |indices|, 0),
        Some(U16Bytes(indices)), old(versions.next), Uint16, 0, (|indices| % U32_MODULUS) as u32, 2, VertexStep))
      ensures structureVersion == WrappingIncU64(old(structureVersion))
      ensures dataVersion == WrappingIncU64(old(dataVersion))
      ensures attributes == old(attributes) && layoutVersion == old(layoutVersion)
      ensures ids.next == WrappingIncU64(old(ids.next)) && versions.next == WrappingIncU64(old(versions.next))
      ensures MorphState() == old(MorphState())
    {
      var raw := U16Bytes(indices);
      var buffer := NewBufferRef(ids, |raw|, INDEX_COPY_DST);
      var version := versions.Fetch();
      indexAttribute := Some(Attribute(buffer, Some(raw), version, Uint16, 0, (|indices| % U32_MODULUS) as u32, 2, VertexStep));
      structureVersion := WrappingIncU64(structureVersion);
      dataVersion := WrappingIncU64(dataVersion);
    }

    /** `set_indices_u32`: the same with 32-bit indices, stride 4, format `Uint32`. */
    method SetIndicesU32(ids: BufferIdCounter, versions: AttrVersionCounter, indices: seq<u32>)
      requires Valid()
      modifies this, ids, versions
      ensures Valid() && NotWrapped() == old(NotWrapped())
      ensures indexAttribute == Some(Attribute(BufferRef(old(ids.next), INDEX_COPY_DST, 4 * |indices|, 0),
        Some(U32Bytes(indices)), old(versions.next), Uint32, 0, (|indices| % U32_MODULUS) as u32, 4, VertexStep))
      ensures structureVersion == WrappingIncU64(old(structureVersion))
      ensures dataVersion == WrappingIncU64(old(dataVersion))
      ensures attributes == old(attributes) && layoutVersion == old(layoutVersion)
      ensures ids.next == WrappingIncU64(old(ids.next)) && versions.next == WrappingIncU64(old(versions.next))
      ensures MorphState() == old(MorphState())
    {
      var raw := U32Bytes(indices);
      var buffer := NewBufferRef(ids, |raw|, INDEX_COPY_DST);
      var version := versions.Fetch();
      indexAttribute := Some(Attribute(buffer, Some(raw), version, Uint32, 0, (|indices| % U32_MODULUS) as u32, 4, VertexStep));
      structureVersion := WrappingIncU64(structureVersion);
      dataVersion := WrappingIncU64(dataVersion);
    }

    /**
     * `update_attribute_region`: on a present name the region update is
     * attempted and the data version goes up, even when the region did not
     * fit and nothing was written.
     */
    method UpdateAttributeRegion(versions: AttrVersionCounter, name: string, offsetBytes: u64, bytes: seq<u8>)
      requires Valid()
      modifies this, versions
      ensures Valid() && NotWrapped() == old(NotWrapped())
      ensures name !in old(attributes) ==> attributes == old(attributes) && dataVersion == old(dataVersion)
      ensures name in old(attributes) ==> dataVersion == WrappingIncU64(old(dataVersion))
      ensures name in old(attributes) ==> attributes.Keys == old(attributes).Keys
      ensures name in old(attributes) ==> attributes == old(attributes)[name := attributes[name]]
      ensures name in old(attributes) && RegionFits(old(attributes)[name], offsetBytes, bytes) ==>
        && attributes[name] == old(attributes)[name].(data := Some(Overwrite(old(attributes)[name].data.value, offsetBytes as int, bytes)),
                                                      version := old(versions.next))
        && versions.next == WrappingIncU64(old(versions.next))
      ensures !(name in old(attributes) && RegionFits(old(attributes)[name], offsetBytes, bytes)) ==>
        attributes == old(attributes) && versions.next == old(versions.next)
      ensures layoutVersion == old(layoutVersion) && structureVersion == old(structureVersion)
      ensures indexAttribute == old(indexAttribute) && MorphState() == old(MorphState())
    {
      if name in attributes {
        var updated := UpdateRegion(attributes[name], versions, offsetBytes, bytes);
        assert attributes[name := updated].Keys == attributes.Keys;
        attributes := attributes[name := updated];
        dataVersion := WrappingIncU64(dataVersion);
      }
    }

    /**
     * `shader_defines`: the cached defines when they were computed under
     * the current layout version, otherwise a fresh computation that
     * refills the cache. Either way the result is the defines of the
     * current attributes, unless the layout version has wrapped all the way
     * round since the cache was filled. Only the cache cell changes.
     */
    method ShaderDefines() returns (defines: map<string, string>)
      requires Valid() && cache.Valid()
      modifies cache
      ensures Valid() && cache.Valid() && (old(NotWrapped()) ==> NotWrapped())
      ensures old(NotWrapped()) ==> defines == CurrentDefines()
      ensures cache.entry.Some? && cache.entry.value.0 == layoutVersion
    {
      if cache.entry.Some? && cache.entry.value.0 == layoutVersion {
        if NotWrapped() {
          SameResidue(cache.bumps, layoutBumps);
        }
        return cache.entry.value.1;
      }
      defines := ComputeDefines();
      cache.Fill(layoutVersion, defines, layoutBumps, Inputs());
    }

    /** The slow path of `shader_defines`: one define per attribute name, then the morph and skinning defines. */
    method ComputeDefines() returns (defines: map<string, string>)
      ensures defines == DefinesOf(attributes.Keys, HasMorphTargets(), morphNormalBuffer.Some?, morphTangentBuffer.Some?)
    {
      defines := ComputeAttributeDefines();
      if HasMorphTargets() {
        defines := defines["HAS_MORPH_TARGETS" := "1"];
        if morphNormalBuffer.Some? {
          defines := defines["HAS_MORPH_NORMALS" := "1"];
        }
        if morphTangentBuffer.Some? {
          defines := defines["HAS_MORPH_TANGENTS" := "1"];
        }
      }
      var hasJoints := "joints" in attributes;
      var hasWeights := "weights" in attributes;
      if hasJoints && hasWeights {
        defines := defines["SUPPORT_SKINNING" := "1"];
      }
    }

    /** The loop of `shader_defines` over the attributes, in the map's unspecified order. */
    method ComputeAttributeDefines() returns (defines: map<string, string>)
      ensures defines == AttributeDefines(attributes.Keys)
    {
      defines := map[];
      var remaining := attributes.Keys;
      while remaining != {}
        invariant remaining <= attributes.Keys
        invariant defines == AttributeDefines(attributes.Keys - remaining)
        decreases |remaining|
      {
        var name :| name in remaining;
        AttributeDefinesAdd(attributes.Keys - remaining, name);
        assert attributes.Keys - (remaining - {name}) == (attributes.Keys - remaining) + {name};
        defines := defines[Macro(name) := "1"];
        remaining := remaining - {name};
      }
      assert attributes.Keys - remaining == attributes.Keys;
    }
  }

  /** Two counts less than 2^64 apart with the same residue are equal. */
  lemma SameResidue(a: nat, b: nat)
    requires a <= b < a + U64_MODULUS && a % U64_MODULUS == b % U64_MODULUS
    ensures a == b
  {
    var m := U64_MODULUS;
    assert a == (a / m) * m + a % m;
    assert b == (b / m) * m + b % m;
  }

  /** Re-setting an attribute with the same format and step mode leaves the cached defines valid and the layout version alone. */
  method ReplaceKeepsLayout(g: Geometry, name: string, a: Attribute)
    requires g.Valid() && name in g.attributes
    requires g.attributes[name].format == a.format && g.attributes[name].stepMode == a.stepMode
    modifies g
    ensures g.Valid() && g.layoutVersion == old(g.layoutVersion) && g.attributes == old(g.attributes)[name := a]
    ensures old(g.NotWrapped()) ==> g.NotWrapped()
  {
    g.SetAttribute(name, a);
  }
}
