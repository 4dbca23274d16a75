/**
 * Shader compilation options: the define set a shader variant is generated
 * from. Options are built by layering the material, geometry, scene and
 * per-item defines, and two options are the same variant exactly when their
 * define sets are equal. Template rendering itself is not part of this
 * model.
 */
module ShaderGen {
  import opened Wrappers
  import opened ShaderDefines

  /** Which layer wins for a key: the per-item defines, then the scene, then the geometry, then the material. */
  function Layered(mat: map<Symbol, Symbol>, geo: map<Symbol, Symbol>, scene: map<Symbol, Symbol>,
                   item: map<Symbol, Symbol>, k: Symbol): (r: Option<Symbol>)
    ensures r.Some? <==> k in mat || k in geo || k in scene || k in item
  {
    if k in item then Some(item[k])
    else if k in scene then Some(scene[k])
    else if k in geo then Some(geo[k])
    else if k in mat then Some(mat[k])
    else None
  }

  class ShaderCompilationOptions {
    var defines: ShaderDefines

    ghost predicate Valid()
      reads this, defines
    {
      defines.Valid()
    }

    /** `new`: no defines. */
    constructor ()
      ensures Valid() && fresh(defines) && defines.defines == []
    {
      defines := new ShaderDefines();
    }

    constructor Wrap(d: ShaderDefines)
      requires d.Valid()
      ensures this.defines == d && Valid()
    {
      defines := d;
    }

    /** `add_define`: sets the key, overriding any value it had. */
    method AddDefine(key: Symbol, value: Symbol)
      requires Valid()
      modifies defines
      ensures Valid()
      ensures AsMap(defines.defines) == old(AsMap(defines.defines))[key := value]
    {
      defines.SetSymbol(key, value);
    }

    /** `compute_hash`: the hash of the define vector, the same one `Hash` feeds. */
    function ComputeHash(hasher: Hasher): u64
      reads this, defines
    {
      defines.ComputeHash(hasher)
    }

    /** `PartialEq`: compares the define vectors. */
    predicate Equals(other: ShaderCompilationOptions)
      reads this, defines, other, other.defines
    {
      defines.defines == other.defines.defines
    }
  }

  /**
   * `from_merged`: a copy of the material defines, then the geometry, scene
   * and per-item defines merged over it in that order, so later sources win.
   */
  method FromMerged(mat: ShaderDefines, geo: ShaderDefines, scene: ShaderDefines, item: ShaderDefines)
    returns (opts: ShaderCompilationOptions)
    requires mat.Valid()
    ensures fresh(opts) && fresh(opts.defines) && opts.Valid()
    ensures AsMap(opts.defines.defines) ==
      AsMap(mat.defines) + AsMap(geo.defines) + AsMap(scene.defines) + AsMap(item.defines)
    ensures forall k ::
      var r := Layered(AsMap(mat.defines), AsMap(geo.defines), AsMap(scene.defines), AsMap(item.defines), k);
      (k in AsMap(opts.defines.defines) <==> r.Some?) &&
      (r.Some? ==> AsMap(opts.defines.defines)[k] == r.value)
  {
    var d := new ShaderDefines.CloneOf(mat);
    d.Merge(geo);
    d.Merge(scene);
    d.Merge(item);
    opts := new ShaderCompilationOptions.Wrap(d);
  }

  /** Equal options are those whose define sets hold the same definitions, and they hash alike. */
  lemma EqualIffSameDefinitions(a: ShaderCompilationOptions, b: ShaderCompilationOptions, hasher: Hasher)
    requires a.Valid() && b.Valid()
    ensures a.Equals(b) <==> AsMap(a.defines.defines) == AsMap(b.defines.defines)
    ensures a.Equals(b) ==> a.ComputeHash(hasher) == b.ComputeHash(hasher)
  {
    SameDefinesIffSameMap(a.defines.defines, b.defines.defines);
  }
}
