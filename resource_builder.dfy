/**
 * `ResourceBuilder` collects the entries of one bind group: for each
 * binding a layout entry, the resource bound to it, its WGSL name and how
 * its WGSL struct type is obtained, in four parallel lists, numbering the
 * bindings 0, 1, 2, … in the order they are added. `generate_wgsl` turns the
 * collected entries into the WGSL binding declarations of the group.
 */
module ResourceBuilder {
  import opened Wrappers
  import opened Text
  import opened Buffer

  type NonZeroU64 = x: u64 | x > 0 witness 1

  datatype BufferBindingType = UniformBuffer | StorageBuffer(readOnly: bool)
  datatype TextureSampleType = FloatSample(filterable: bool) | DepthSample | SintSample | UintSample
  datatype TextureViewDimension = D1 | D2 | D2Array | Cube | CubeArray | D3
  datatype SamplerBindingType = Filtering | NonFiltering | Comparison

  /** `wgpu::BindingType`; the kinds the builder never creates are `OtherBinding`. */
  datatype BindingType =
    | BufferBinding(ty: BufferBindingType, hasDynamicOffset: bool, minBindingSize: Option<NonZeroU64>)
    | TextureBinding(sampleType: TextureSampleType, viewDimension: TextureViewDimension, multisampled: bool)
    | SamplerBinding(samplerType: SamplerBindingType)
    | OtherBinding

  /** `wgpu::BindGroupLayoutEntry`; shader-stage visibility is an opaque bit set. */
  datatype LayoutEntry = LayoutEntry(binding: u32, visibility: nat, ty: BindingType, count: Option<nat>)

  /** `BindingResource`: textures and samplers by handle. */
  datatype BindingResource =
    | BufferResource(buffer: BufferRef, offset: nat, size: Option<nat>, data: Option<seq<u8>>)
    | TextureResource(texture: Option<nat>)
    | SamplerResource(sampler: Option<nat>)

  /** `WgslStructName`: a generator of the struct definition given its name, or a type name to use as is. */
  datatype WgslStructName = Generator(gen: string -> string) | Name(name: string)

  function OptionSize(s: Option<NonZeroU64>): (r: Option<nat>)
    ensures r.Some? <==> s.Some?
    ensures s.Some? ==> r.value == s.value
  {
    match s
    case Some(v) => Some(v)
    case None => None
  }

  class ResourceBuilder {
    var layoutEntries: seq<LayoutEntry>
    var resources: seq<BindingResource>
    var names: seq<string>
    var structGenerators: seq<Option<WgslStructName>>
    var nextBindingIndex: u32

    /**
     * The four lists move together, and entry `i` has binding number `i`
     * modulo 2^32: the counter is a `u32` that `+= 1` wraps in a release
     * build.
     */
    ghost predicate Valid()
      reads this
    {
      && |resources| == |layoutEntries|
      && |names| == |layoutEntries|
      && |structGenerators| == |layoutEntries|
      && nextBindingIndex as int == |layoutEntries| % U32_MODULUS
      && forall i :: 0 <= i < |layoutEntries| ==> layoutEntries[i].binding as int == i % U32_MODULUS
    }

    /** `new`: no entries. */
    constructor ()
      ensures Valid() && layoutEntries == [] && resources == [] && names == [] && structGenerators == []
    {
      layoutEntries := [];
      resources := [];
      names := [];
      structGenerators := [];
      nextBindingIndex := 0;
    }

    /** One entry appended to all four lists under the next binding number, which then advances. */
    method Push(entry: BindingType, visibility: nat, resource: BindingResource, name: string,
                structName: Option<WgslStructName>)
      requires Valid()
      modifies this
      ensures Valid()
      ensures nextBindingIndex == WrappingIncU32(old(nextBindingIndex))
      ensures layoutEntries == old(layoutEntries) + [LayoutEntry(old(nextBindingIndex), visibility, entry, None)]
      ensures resources == old(resources) + [resource]
      ensures names == old(names) + [name]
      ensures structGenerators == old(structGenerators) + [structName]
    {
      layoutEntries := layoutEntries + [LayoutEntry(nextBindingIndex, visibility, entry, None)];
      resources := resources + [resource];
      names := names + [name];
      structGenerators := structGenerators + [structName];
      nextBindingIndex := WrappingIncU32(nextBindingIndex);
    }

    /** `add_uniform_buffer`: a uniform buffer bound from offset 0, its size the minimum binding size. */
    method AddUniformBuffer(name: string, buffer: BufferRef, data: Option<seq<u8>>, visibility: nat,
                            hasDynamicOffset: bool, minBindingSize: Option<NonZeroU64>,
                            structName: Option<WgslStructName>)
      requires Valid()
      modifies this
      ensures Valid()
      ensures nextBindingIndex == WrappingIncU32(old(nextBindingIndex))
      ensures layoutEntries == old(layoutEntries) + [LayoutEntry(old(nextBindingIndex), visibility,
        BufferBinding(UniformBuffer, hasDynamicOffset, minBindingSize), None)]
      ensures resources == old(resources) + [BufferResource(buffer, 0, OptionSize(minBindingSize), data)]
      ensures names == old(names) + [name]
      ensures structGenerators == old(structGenerators) + [structName]
    {
      Push(BufferBinding(UniformBuffer, hasDynamicOffset, minBindingSize), visibility,
        BufferResource(buffer, 0, OptionSize(minBindingSize), data), name, structName);
    }

    /**
     * `add_uniform`: the buffer's handle and bytes, no dynamic offset, no
     * size, and the struct generated from `T`'s definition.
     */
    method AddUniform(name: string, handle: BufferRef, bytes: seq<u8>, visibility: nat, structDef: string -> string)
      requires Valid()
      modifies this
      ensures Valid()
      ensures nextBindingIndex == WrappingIncU32(old(nextBindingIndex))
      ensures layoutEntries == old(layoutEntries) + [LayoutEntry(old(nextBindingIndex), visibility,
        BufferBinding(UniformBuffer, false, None), None)]
      ensures resources == old(resources) + [BufferResource(handle, 0, None, Some(bytes))]
      ensures names == old(names) + [name]
      ensures structGenerators == old(structGenerators) + [Some(Generator(structDef))]
    {
      AddUniformBuffer(name, handle, Some(bytes), visibility, false, None, Some(Generator(structDef)));
    }

    /** `add_dynamic_uniform`: a dynamic offset, and the minimum binding size as both layout and resource size. */
    method AddDynamicUniform(name: string, bufferRef: BufferRef, data: Option<seq<u8>>,
                             minBindingSize: NonZeroU64, visibility: nat, structDef: string -> string)
      requires Valid()
      modifies this
      ensures Valid()
      ensures nextBindingIndex == WrappingIncU32(old(nextBindingIndex))
      ensures layoutEntries == old(layoutEntries) + [LayoutEntry(old(nextBindingIndex), visibility,
        BufferBinding(UniformBuffer, true, Some(minBindingSize)), None)]
      ensures resources == old(resources) + [BufferResource(bufferRef, 0, Some(minBindingSize as nat), data)]
      ensures names == old(names) + [name]
      ensures structGenerators == old(structGenerators) + [Some(Generator(structDef))]
    {
      AddUniformBuffer(name, bufferRef, data, visibility, true, Some(minBindingSize), Some(Generator(structDef)));
    }

    /** `add_texture`: never multisampled, no struct. */
    method AddTexture(name: string, texture: nat, sampleType: TextureSampleType,
                      viewDimension: TextureViewDimension, visibility: nat)
      requires Valid()
      modifies this
      ensures Valid()
      ensures nextBindingIndex == WrappingIncU32(old(nextBindingIndex))
      ensures layoutEntries == old(layoutEntries) + [LayoutEntry(old(nextBindingIndex), visibility,
        TextureBinding(sampleType, viewDimension, false), None)]
      ensures resources == old(resources) + [TextureResource(Some(texture))]
      ensures names == old(names) + [name]
      ensures structGenerators == old(structGenerators) + [None]
    {
      Push(TextureBinding(sampleType, viewDimension, false), visibility, TextureResource(Some(texture)), name, None);
    }

    /** `add_sampler`: no struct. */
    method AddSampler(name: string, texture: nat, samplerType: SamplerBindingType, visibility: nat)
      requires Valid()
      modifies this
      ensures Valid()
      ensures nextBindingIndex == WrappingIncU32(old(nextBindingIndex))
      ensures layoutEntries == old(layoutEntries) + [LayoutEntry(old(nextBindingIndex), visibility,
        SamplerBinding(samplerType), None)]
      ensures resources == old(resources) + [SamplerResource(Some(texture))]
      ensures names == old(names) + [name]
      ensures structGenerators == old(structGenerators) + [None]
    {
      Push(SamplerBinding(samplerType), visibility, SamplerResource(Some(texture)), name, None);
    }

    /** `add_storage_buffer`: read-only or read-write, no dynamic offset, no size. */
    method AddStorageBuffer(name: string, buffer: BufferRef, data: Option<seq<u8>>, readOnly: bool,
                            visibility: nat, structName: Option<WgslStructName>)
      requires Valid()
      modifies this
      ensures Valid()
      ensures nextBindingIndex == WrappingIncU32(old(nextBindingIndex))
      ensures layoutEntries == old(layoutEntries) + [LayoutEntry(old(nextBindingIndex), visibility,
        BufferBinding(StorageBuffer(readOnly), false, None), None)]
      ensures resources == old(resources) + [BufferResource(buffer, 0, None, data)]
      ensures names == old(names) + [name]
      ensures structGenerators == old(structGenerators) + [structName]
    {
      Push(BufferBinding(StorageBuffer(readOnly), false, None), visibility,
        BufferResource(buffer, 0, None, data), name, structName);
    }

    /** `add_storage`: a storage buffer whose element struct is generated from `T`. */
    method AddStorage(name: string, buffer: BufferRef, data: Option<seq<u8>>, readOnly: bool,
                      visibility: nat, structDef: string -> string)
      requires Valid()
      modifies this
      ensures Valid()
      ensures nextBindingIndex == WrappingIncU32(old(nextBindingIndex))
      ensures layoutEntries == old(layoutEntries) + [LayoutEntry(old(nextBindingIndex), visibility,
        BufferBinding(StorageBuffer(readOnly), false, None), None)]
      ensures resources == old(resources) + [BufferResource(buffer, 0, None, data)]
      ensures names == old(names) + [name]
      ensures structGenerators == old(structGenerators) + [Some(Generator(structDef))]
    {
      AddStorageBuffer(name, buffer, data, readOnly, visibility, Some(Generator(structDef)));
    }

    /**
     * `generate_wgsl`: one pass over the entries, collecting struct
     * definitions and declarations. A buffer entry without a struct name
     * makes the source panic ("need a struct name"), here an `Err`.
     */
    method GenerateWgsl(groupIndex: u32) returns (r: Result<string, string>)
      requires Valid()
      ensures r == GeneratedWgsl(groupIndex, layoutEntries, names, structGenerators)
    {
      var bindingsCode := "";
      var structDefs := "";
      var i := 0;
      while i < |layoutEntries|
        invariant 0 <= i <= |layoutEntries|
        invariant Emit(groupIndex, layoutEntries, names, structGenerators, i) == Ok((structDefs, bindingsCode))
      {
        var name := names[i];
        var entry := layoutEntries[i];
        var structTypeName := StructTypeName(name, structGenerators[i]);
        structDefs := structDefs + StructDef(name, structGenerators[i]);
        var decl := Declaration(groupIndex, entry, name, structTypeName);
        if decl.Err? {
          EmitStopsAtError(groupIndex, layoutEntries, names, structGenerators, i + 1);
          return Err(decl.error);
        }
        bindingsCode := bindingsCode + decl.value + "\n";
        i := i + 1;
      }
      r := Ok(Header(groupIndex) + structDefs + "\n" + bindingsCode + "\n");
    }
  }

  const NEED_STRUCT_NAME: string := "need a struct name"

  /** The type name a buffer's declaration uses: "Struct_" + name for a generated struct. */
  function StructTypeName(name: string, sg: Option<WgslStructName>): (r: Option<string>)
    ensures r.Some? <==> sg.Some?
    ensures sg.Some? && sg.value.Generator? ==> r.value == "Struct_" + name
    ensures sg.Some? && sg.value.Name? ==> r.value == sg.value.name
  {
    match sg
    case None => None
    case Some(Generator(_)) => Some("Struct_" + name)
    case Some(Name(n)) => Some(n)
  }

  /** The struct definition a generator contributes, followed by a newline; nothing for a plain name. */
  function StructDef(name: string, sg: Option<WgslStructName>): string
  {
    match sg
    case Some(Generator(gen)) => gen("Struct_" + name) + "\n"
    case _ => ""
  }

  function TextureTypeName(vd: TextureViewDimension, st: TextureSampleType): string
  {
    match (vd, st)
    case (D2, FloatSample(_)) => "texture_2d<f32>"
    case (D2, DepthSample) => "texture_depth_2d"
    case (Cube, FloatSample(_)) => "texture_cube<f32>"
    case _ => "texture_2d<f32>"
  }

  function SamplerTypeName(t: SamplerBindingType): string
  {
    if t == Comparison then "sampler_comparison" else "sampler"
  }

  function Access(readOnly: bool): string
  {
    if readOnly then "read" else "read_write"
  }

  /** "@group(g) @binding(b) ", with which every declaration starts. */
  function BindingPrefix(group: nat, binding: nat): string
  {
    "@group(" + NatToString(group) + ") @binding(" + NatToString(binding) + ") "
  }

  /** The declaration of one entry. */
  function Declaration(group: u32, entry: LayoutEntry, name: string, structTypeName: Option<string>)
    : Result<string, string>
  {
    var prefix := BindingPrefix(group, entry.binding);
    match entry.ty
    case BufferBinding(UniformBuffer, _, _) =>
      if structTypeName.None? then Err(NEED_STRUCT_NAME)
      else Ok(prefix + "var<uniform> u_" + name + ": " + structTypeName.value + ";")
    case BufferBinding(StorageBuffer(readOnly), _, _) =>
      if structTypeName.None? then Err(NEED_STRUCT_NAME)
      else Ok(prefix + "var<storage, " + Access(readOnly) + "> st_" + name + ": array<" + structTypeName.value + ">;")
    case TextureBinding(st, vd, _) => Ok(prefix + "var t_" + name + ": " + TextureTypeName(vd, st) + ";")
    case SamplerBinding(t) => Ok(prefix + "var s_" + name + ": " + SamplerTypeName(t) + ";")
    case OtherBinding => Ok("")
  }

  function Header(group: nat): string
  {
    "// --- Auto Generated Bindings (Group " + NatToString(group) + ") ---\n"
  }

  /** The struct definitions and declaration lines of the first `n` entries, or the panic. */
  function Emit(group: u32, entries: seq<LayoutEntry>, names: seq<string>, gens: seq<Option<WgslStructName>>,
                n: nat): Result<(string, string), string>
    requires n <= |entries| && |names| == |entries| && |gens| == |entries|
  {
    if n == 0 then Ok(("", ""))
    else
      match Emit(group, entries, names, gens, n - 1)
      case Err(e) => Err(e)
      case Ok((structDefs, bindingsCode)) =>
        match Declaration(group, entries[n - 1], names[n - 1], StructTypeName(names[n - 1], gens[n - 1]))
        case Err(e) => Err(e)
        case Ok(decl) => Ok((structDefs + StructDef(names[n - 1], gens[n - 1]), bindingsCode + decl + "\n"))
  }

  function GeneratedWgsl(group: u32, entries: seq<LayoutEntry>, names: seq<string>,
                         gens: seq<Option<WgslStructName>>): Result<string, string>
    requires |names| == |entries| && |gens| == |entries|
  {
    match Emit(group, entries, names, gens, |entries|)
    case Err(e) => Err(e)
    case Ok((structDefs, bindingsCode)) => Ok(Header(group) + structDefs + "\n" + bindingsCode + "\n")
  }

  lemma EmitStopsAtError(group: u32, entries: seq<LayoutEntry>, names: seq<string>,
                         gens: seq<Option<WgslStructName>>, n: nat)
    requires 0 < n <= |entries| && |names| == |entries| && |gens| == |entries|
    requires Emit(group, entries, names, gens, n - 1).Ok?
    requires Declaration(group, entries[n - 1], names[n - 1], StructTypeName(names[n - 1], gens[n - 1])).Err?
    ensures GeneratedWgsl(group, entries, names, gens)
      == Err(Declaration(group, entries[n - 1], names[n - 1], StructTypeName(names[n - 1], gens[n - 1])).error)
  {
    EmitErrPersists(group, entries, names, gens, n, |entries|);
  }

  lemma {:induction false} EmitErrPersists(group: u32, entries: seq<LayoutEntry>, names: seq<string>,
                                           gens: seq<Option<WgslStructName>>, n: nat, m: nat)
    requires 0 < n <= m <= |entries| && |names| == |entries| && |gens| == |entries|
    requires Emit(group, entries, names, gens, n - 1).Ok?
    requires Declaration(group, entries[n - 1], names[n - 1], StructTypeName(names[n - 1], gens[n - 1])).Err?
    ensures Emit(group, entries, names, gens, m)
      == Err(Declaration(group, entries[n - 1], names[n - 1], StructTypeName(names[n - 1], gens[n - 1])).error)
    decreases m
  {
    if m > n {
      EmitErrPersists(group, entries, names, gens, n, m - 1);
      EmitErrStays(group, entries, names, gens, m);
    }
  }

  lemma EmitErrStays(group: u32, entries: seq<LayoutEntry>, names: seq<string>,
                     gens: seq<Option<WgslStructName>>, m: nat)
    requires 0 < m <= |entries| && |names| == |entries| && |gens| == |entries|
    requires Emit(group, entries, names, gens, m - 1).Err?
    ensures Emit(group, entries, names, gens, m) == Emit(group, entries, names, gens, m - 1)
  {
  }

  /** An entry whose declaration needs a struct name it does not have: a uniform or storage buffer without one. */
  predicate MissingStructName(entry: LayoutEntry, gen: Option<WgslStructName>)
  {
    entry.ty.BufferBinding? && gen.None?
  }

  lemma DeclarationErrIff(group: u32, entry: LayoutEntry, name: string, gen: Option<WgslStructName>)
    ensures Declaration(group, entry, name, StructTypeName(name, gen)).Err? <==> MissingStructName(entry, gen)
  {
  }

  /** Some of the first `n` entries misses its struct name. */
  predicate AnyMissing(entries: seq<LayoutEntry>, gens: seq<Option<WgslStructName>>, n: nat)
    requires n <= |entries| && n <= |gens|
  {
    n > 0 && (AnyMissing(entries, gens, n - 1) || MissingStructName(entries[n - 1], gens[n - 1]))
  }

  lemma {:induction false} AnyMissingIff(entries: seq<LayoutEntry>, gens: seq<Option<WgslStructName>>, n: nat)
    requires n <= |entries| && n <= |gens|
    ensures AnyMissing(entries, gens, n) <==> exists i :: 0 <= i < n && MissingStructName(entries[i], gens[i])
    decreases n
  {
    if n > 0 {
      AnyMissingIff(entries, gens, n - 1);
      if MissingStructName(entries[n - 1], gens[n - 1]) {
        assert 0 <= n - 1 < n;
      }
    }
  }

  /** `generate_wgsl` stops with the panic exactly when one of the entries so far misses its struct name. */
  lemma {:induction false} EmitErrIff(group: u32, entries: seq<LayoutEntry>, names: seq<string>,
                                      gens: seq<Option<WgslStructName>>, n: nat)
    requires n <= |entries| && |names| == |entries| && |gens| == |entries|
    ensures Emit(group, entries, names, gens, n).Err? <==> AnyMissing(entries, gens, n)
    decreases n
  {
    if n > 0 {
      EmitErrIff(group, entries, names, gens, n - 1);
      EmitErrStep(group, entries, names, gens, n);
    }
  }

  lemma EmitErrStep(group: u32, entries: seq<LayoutEntry>, names: seq<string>,
                    gens: seq<Option<WgslStructName>>, n: nat)
    requires 0 < n <= |entries| && |names| == |entries| && |gens| == |entries|
    ensures Emit(group, entries, names, gens, n).Err?
      <==> Emit(group, entries, names, gens, n - 1).Err? || MissingStructName(entries[n - 1], gens[n - 1])
  {
    DeclarationErrIff(group, entries[n - 1], names[n - 1], gens[n - 1]);
  }

  lemma GeneratedWgslErrIff(group: u32, entries: seq<LayoutEntry>, names: seq<string>, gens: seq<Option<WgslStructName>>)
    requires |names| == |entries| && |gens| == |entries|
    ensures GeneratedWgsl(group, entries, names, gens).Err?
      <==> exists i :: 0 <= i < |entries| && MissingStructName(entries[i], gens[i])
  {
    EmitErrIff(group, entries, names, gens, |entries|);
    AnyMissingIff(entries, gens, |entries|);
  }

  /** The generated text starts with the group header and ends with a newline. */
  lemma GeneratedWgslShape(group: u32, entries: seq<LayoutEntry>, names: seq<string>, gens: seq<Option<WgslStructName>>)
    requires |names| == |entries| && |gens| == |entries|
    requires GeneratedWgsl(group, entries, names, gens).Ok?
    ensures var code := GeneratedWgsl(group, entries, names, gens).value;
      |code| > |Header(group)| && code[..|Header(group)|] == Header(group) && code[|code| - 1] == '\n'
  {
    var e := Emit(group, entries, names, gens, |entries|).value;
    var code := Header(group) + e.0 + "\n" + e.1 + "\n";
    assert code[..|Header(group)|] == Header(group);
  }

  /** Decimal strings of different numbers differ. */
  lemma NatToStringInjective(a: nat, b: nat)
    requires NatToString(a) == NatToString(b)
    ensures a == b
  {
    NatToStringRoundTrip(a);
    NatToStringRoundTrip(b);
  }

  lemma {:induction false} PrefixesOfDifferentLength(p: string, x: string, y: string, q: string, r: string)
    requires p + x + q == p + y + r
    requires |x| <= |y|
    requires forall i :: 0 <= i < |x| ==> '0' <= x[i] <= '9'
    requires forall i :: 0 <= i < |y| ==> '0' <= y[i] <= '9'
    requires |q| > 0 && !('0' <= q[0] <= '9')
    ensures x == y
  {
    var s := p + x + q;
    assert s[|p| + |x|] == q[0];
    assert forall i :: |p| <= i < |p| + |y| ==> (p + y + r)[i] == y[i - |p|];
    if |x| < |y| {
      assert false;
    }
    forall i | 0 <= i < |x| ensures x[i] == y[i] {
      assert s[|p| + i] == x[i];
      assert (p + y + r)[|p| + i] == y[i];
    }
  }

  /**
   * Binding prefixes name their binding number unambiguously: two
   * declarations of one group with the same prefix have the same binding,
   * so the declarations of a valid builder's entries, numbered 0, 1, 2, …,
   * all carry different bindings.
   */
  lemma BindingPrefixInjective(group: nat, b1: nat, b2: nat)
    requires BindingPrefix(group, b1) == BindingPrefix(group, b2)
    ensures b1 == b2
  {
    var p := "@group(" + NatToString(group) + ") @binding(";
    var x, y := NatToString(b1), NatToString(b2);
    assert BindingPrefix(group, b1) == p + x + ") " && BindingPrefix(group, b2) == p + y + ") ";
    if |x| <= |y| {
      PrefixesOfDifferentLength(p, x, y, ") ", ") ");
    } else {
      PrefixesOfDifferentLength(p, y, x, ") ", ") ");
    }
    NatToStringInjective(b1, b2);
  }

  /** A storage buffer is declared with access "read" exactly when it is read-only, "read_write" otherwise. */
  lemma StorageAccessMode(readOnly: bool)
    ensures Access(readOnly) == "read" <==> readOnly
    ensures Access(readOnly) == "read_write" <==> !readOnly
  {
  }

  /**
   * The declaration of a builder entry made by one of the `add_*` methods
   * for a uniform buffer with a generated struct uses the `u_` prefix and
   * the type "Struct_<name>", and that struct's definition is emitted.
   */
  lemma GeneratedUniformDeclaration(group: u32, binding: u32, visibility: nat, dynamic: bool,
                                    minSize: Option<NonZeroU64>, name: string, gen: string -> string)
    ensures var entry := LayoutEntry(binding, visibility, BufferBinding(UniformBuffer, dynamic, minSize), None);
      var sg := Some(Generator(gen));
      && Declaration(group, entry, name, StructTypeName(name, sg))
        == Ok(BindingPrefix(group, binding) + "var<uniform> u_" + name + ": Struct_" + name + ";")
      && StructDef(name, sg) == gen("Struct_" + name) + "\n"
  {
    var entry := LayoutEntry(binding, visibility, BufferBinding(UniformBuffer, dynamic, minSize), None);
    var p := BindingPrefix(group, binding);
    assert p + "var<uniform> u_" + name + ": " + ("Struct_" + name) + ";"
      == p + "var<uniform> u_" + name + ": Struct_" + name + ";";
  }

  /** A storage entry's element type is always an array of its struct type. */
  lemma StorageDeclaration(group: u32, binding: u32, visibility: nat, readOnly: bool, name: string, typeName: string)
    ensures var entry := LayoutEntry(binding, visibility, BufferBinding(StorageBuffer(readOnly), false, None), None);
      Declaration(group, entry, name, Some(typeName))
        == Ok(BindingPrefix(group, binding) + "var<storage, " + Access(readOnly) + "> st_" + name
          + ": array<" + typeName + ">;")
  {
  }
}
