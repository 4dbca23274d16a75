/**
 * Vertex layout generation: a geometry's attributes are grouped by the GPU
 * buffer that holds them, each group is ordered by (offset, name), the groups
 * are ordered by the name of their first attribute, and shader locations
 * are handed out 0, 1, 2, … in that order. The result gives one wgpu buffer
 * layout per buffer, the `VertexInput` WGSL struct and a name → location map.
 */
module Vertex {
  import opened Wrappers
  import opened Sorting
  import opened Text

  datatype StepMode = VertexStep | InstanceStep

  datatype VertexFormat =
    | Float32 | Float32x2 | Float32x3 | Float32x4
    | Float64 | Float64x2 | Float64x3 | Float64x4
    | Uint32 | Uint32x2 | Uint32x3 | Uint32x4
    | Sint32 | Sint32x2 | Sint32x3 | Sint32x4
    | Unorm8x2 | Unorm8x4 | Snorm8x2 | Snorm8x4
    | Unorm16x2 | Unorm16x4 | Snorm16x2 | Snorm16x4
    | Uint8x2 | Uint8x4 | Sint8x2 | Sint8x4
    | Uint16x2 | Uint16x4 | Sint16x2 | Sint16x4
    | Uint16
    | OtherFormat(code: nat)

  /** `format_to_wgsl_type`; double-precision formats are read as `f32`, and anything else falls back to `f32`. */
  function WgslType(f: VertexFormat): string
  {
    match f
    case Float32 => "f32"
    case Float32x2 => "vec2<f32>"
    case Float32x3 => "vec3<f32>"
    case Float32x4 => "vec4<f32>"
    case Float64 => "f32"
    case Float64x2 => "vec2<f32>"
    case Float64x3 => "vec3<f32>"
    case Float64x4 => "vec4<f32>"
    case Uint32 => "u32"
    case Uint32x2 => "vec2<u32>"
    case Uint32x3 => "vec3<u32>"
    case Uint32x4 => "vec4<u32>"
    case Sint32 => "i32"
    case Sint32x2 => "vec2<i32>"
    case Sint32x3 => "vec3<i32>"
    case Sint32x4 => "vec4<i32>"
    case Unorm8x2 => "vec2<f32>"
    case Unorm8x4 => "vec4<f32>"
    case Snorm8x2 => "vec2<f32>"
    case Snorm8x4 => "vec4<f32>"
    case Unorm16x2 => "vec2<f32>"
    case Unorm16x4 => "vec4<f32>"
    case Snorm16x2 => "vec2<f32>"
    case Snorm16x4 => "vec4<f32>"
    case Uint8x2 => "vec2<u32>"
    case Uint8x4 => "vec4<u32>"
    case Sint8x2 => "vec2<i32>"
    case Sint8x4 => "vec4<i32>"
    case Uint16x2 => "vec2<u32>"
    case Uint16x4 => "vec4<u32>"
    case Sint16x2 => "vec2<i32>"
    case Sint16x4 => "vec4<i32>"
    case Uint16 => "f32"
    case OtherFormat(_) => "f32"
  }

  /** What layout generation reads of a geometry attribute; `bufferId` is its buffer's id. */
  datatype Attr = Attr(bufferId: nat, format: VertexFormat, offset: u64, stride: u64, stepMode: StepMode)

  /** A geometry attribute and its name. */
  type Named = (string, Attr)

  /** A buffer id and the attributes stored in that buffer. */
  type Group = (nat, seq<Named>)

  datatype VertexAttribute = VertexAttribute(format: VertexFormat, offset: u64, shaderLocation: u32)

  datatype OwnedVertexBufferDesc = OwnedVertexBufferDesc(
    arrayStride: u64, stepMode: StepMode, attributes: seq<VertexAttribute>, buffer: nat)

  datatype GeneratedVertexLayout = GeneratedVertexLayout(
    buffers: seq<OwnedVertexBufferDesc>, vertexInputCode: string, attributeLocations: map<string, u32>)

  datatype VertexBufferLayoutSignature = VertexBufferLayoutSignature(
    arrayStride: u64, stepMode: StepMode, attributes: seq<VertexAttribute>)

  datatype VertexLayoutSignature = VertexLayoutSignature(buffers: seq<VertexBufferLayoutSignature>)

  /** The attribute names are the keys of the geometry's attribute map, so they are distinct. */
  ghost predicate NamesDistinct(s: seq<Named>)
  {
    forall i, j :: 0 <= i < j < |s| ==> s[i].0 != s[j].0
  }

  // ---- grouping by buffer ----

  function FindGroup(gs: seq<Group>, id: nat): (r: Option<nat>)
    ensures r.Some? ==> r.value < |gs| && gs[r.value].0 == id
    ensures r.None? ==> forall j :: 0 <= j < |gs| ==> gs[j].0 != id
    decreases |gs|
  {
    if gs == [] then None
    else if gs[|gs| - 1].0 == id then Some(|gs| - 1)
    else FindGroup(gs[..|gs| - 1], id)
  }

  /** `buffer_groups.entry(id).or_default().push(..)`. */
  function AddToGroups(gs: seq<Group>, a: Named): seq<Group>
  {
    match FindGroup(gs, a.1.bufferId)
    case Some(j) => gs[j := (gs[j].0, gs[j].1 + [a])]
    case None => gs + [(a.1.bufferId, [a])]
  }

  /**
   * The grouping loop. The source collects a hash map, whose iteration
   * order is unspecified; here groups appear in the order their buffer
   * is first met, and the sorts below decide the final order.
   */
  function GroupByBuffer(attrs: seq<Named>): seq<Group>
    decreases |attrs|
  {
    if attrs == [] then [] else AddToGroups(GroupByBuffer(attrs[..|attrs| - 1]), attrs[|attrs| - 1])
  }

  /** `offset.cmp(..).then(name.cmp(..))`. */
  predicate AttrLe(a: Named, b: Named)
  {
    a.1.offset < b.1.offset || (a.1.offset == b.1.offset && StrLe(a.0, b.0))
  }

  function FirstName(g: Group): string
  {
    if g.1 == [] then "" else g.1[0].0
  }

  /** Groups compare by the name of their first attribute. */
  predicate GroupLe(a: Group, b: Group)
  {
    StrLe(FirstName(a), FirstName(b))
  }

  function SortEach(gs: seq<Group>): (r: seq<Group>)
    ensures |r| == |gs|
    ensures forall j :: 0 <= j < |gs| ==> r[j] == (gs[j].0, SortBy(gs[j].1, AttrLe))
    decreases |gs|
  {
    if gs == [] then [] else SortEach(gs[..|gs| - 1]) + [(gs[|gs| - 1].0, SortBy(gs[|gs| - 1].1, AttrLe))]
  }

  /** The groups in the order locations are assigned. */
  function SortedGroups(attrs: seq<Named>): seq<Group>
  {
    SortBy(SortEach(GroupByBuffer(attrs)), GroupLe)
  }

  function Flatten(gs: seq<Group>): seq<Named>
    decreases |gs|
  {
    if gs == [] then [] else Flatten(gs[..|gs| - 1]) + gs[|gs| - 1].1
  }

  /** Every attribute in the order it receives its location. */
  function Flat(attrs: seq<Named>): seq<Named>
  {
    Flatten(SortedGroups(attrs))
  }

  /** One `@location(n) name: type,` line of the `VertexInput` struct. */
  datatype WgslField = WgslField(location: nat, name: string, format: VertexFormat)

  function FieldText(f: WgslField): string
  {
    "    @location(" + NatToString(f.location) + ") " + f.name + ": " + WgslType(f.format) + ","
  }

  function FieldTexts(fs: seq<WgslField>): (r: seq<string>)
    ensures |r| == |fs|
    ensures forall i :: 0 <= i < |fs| ==> r[i] == FieldText(fs[i])
    decreases |fs|
  {
    if fs == [] then [] else FieldTexts(fs[..|fs| - 1]) + [FieldText(fs[|fs| - 1])]
  }

  /** The field each attribute of the location order declares. */
  function FieldLines(flat: seq<Named>): (r: seq<WgslField>)
    ensures |r| == |flat|
    ensures forall i :: 0 <= i < |flat| ==> r[i] == WgslField(i, flat[i].0, flat[i].1.format)
  {
    seq(|flat|, i requires 0 <= i < |flat| => WgslField(i, flat[i].0, flat[i].1.format))
  }

  /** `format!("struct VertexInput {{\n{}\n}};", fields.join("\n"))`. */
  function VertexInputCode(fields: seq<WgslField>): string
  {
    "struct VertexInput {\n" + Join(FieldTexts(fields), "\n") + "\n};"
  }

  // ---- well-formed groupings ----

  /** What the grouping guarantees: one group per buffer, none empty, its members stored in that buffer. */
  ghost predicate WellGrouped(gs: seq<Group>)
  {
    && (forall j, k :: 0 <= j < k < |gs| ==> gs[j].0 != gs[k].0)
    && (forall j :: 0 <= j < |gs| ==> gs[j].1 != [])
    && (forall j, p :: 0 <= j < |gs| && 0 <= p < |gs[j].1| ==> gs[j].1[p].1.bufferId == gs[j].0)
  }

  function BufferIds(attrs: seq<Named>): set<nat>
  {
    set i | 0 <= i < |attrs| :: attrs[i].1.bufferId
  }

  function GroupIds(gs: seq<Group>): set<nat>
  {
    set j | 0 <= j < |gs| :: gs[j].0
  }

  lemma {:induction false} FlattenConcat(a: seq<Group>, b: seq<Group>)
    ensures Flatten(a + b) == Flatten(a) + Flatten(b)
    decreases |b|
  {
    if b == [] {
      assert a + b == a;
    } else {
      assert (a + b)[..|a + b| - 1] == a + b[..|b| - 1];
      FlattenConcat(a, b[..|b| - 1]);
    }
  }

  lemma FlattenSingle(g: Group)
    ensures Flatten([g]) == g.1
  {
    assert [g][..0] == [];
  }

  /** The p-th attribute of group j sits at flat index |Flatten(gs[..j])| + p. */
  lemma FlattenIndex(gs: seq<Group>, j: nat, p: nat)
    requires j < |gs| && p < |gs[j].1|
    ensures |Flatten(gs[..j])| + p < |Flatten(gs)|
    ensures Flatten(gs)[|Flatten(gs[..j])| + p] == gs[j].1[p]
  {
    assert gs == gs[..j] + [gs[j]] + gs[j + 1..];
    FlattenConcat(gs[..j] + [gs[j]], gs[j + 1..]);
    FlattenConcat(gs[..j], [gs[j]]);
    FlattenSingle(gs[j]);
  }

  lemma FlattenPrefix(gs: seq<Group>, j: nat)
    requires j < |gs|
    ensures Flatten(gs[..j + 1]) == Flatten(gs[..j]) + gs[j].1
  {
    assert gs[..j + 1][..j] == gs[..j];
  }

  /** How many attributes the groups before `j` hold: the first location of group `j`. */
  function Offset(gs: seq<Group>, j: nat): nat
    requires j <= |gs|
  {
    if j == 0 then 0 else Offset(gs, j - 1) + |gs[j - 1].1|
  }

  lemma {:induction false} OffsetFlatten(gs: seq<Group>, j: nat)
    requires j <= |gs|
    ensures Offset(gs, j) == |Flatten(gs[..j])|
    decreases j
  {
    if j == 0 {
      assert gs[..0] == [];
    } else {
      OffsetFlatten(gs, j - 1);
      FlattenPrefix(gs, j - 1);
    }
  }

  lemma AddToGroupsWell(gs: seq<Group>, a: Named)
    requires WellGrouped(gs)
    ensures WellGrouped(AddToGroups(gs, a))
  {
  }

  lemma AddToGroupsFlatten(gs: seq<Group>, a: Named)
    ensures multiset(Flatten(AddToGroups(gs, a))) == multiset(Flatten(gs)) + multiset{a}
  {
    match FindGroup(gs, a.1.bufferId)
    case Some(j) =>
      var g' := (gs[j].0, gs[j].1 + [a]);
      var pre, post := gs[..j], gs[j + 1..];
      assert gs == pre + [gs[j]] + post;
      assert AddToGroups(gs, a) == pre + [g'] + post;
      FlattenConcat(pre + [gs[j]], post);
      FlattenConcat(pre, [gs[j]]);
      FlattenConcat(pre + [g'], post);
      FlattenConcat(pre, [g']);
      FlattenSingle(gs[j]);
      FlattenSingle(g');
    case None =>
      FlattenConcat(gs, [(a.1.bufferId, [a])]);
      FlattenSingle((a.1.bufferId, [a]));
  }

  lemma AddToGroupsIds(gs: seq<Group>, a: Named)
    ensures GroupIds(AddToGroups(gs, a)) == GroupIds(gs) + {a.1.bufferId}
  {
    var r := AddToGroups(gs, a);
    forall x | x in GroupIds(gs) ensures x in GroupIds(r) {
      var k :| 0 <= k < |gs| && gs[k].0 == x;
      assert r[k].0 == x;
    }
    match FindGroup(gs, a.1.bufferId)
    case Some(j) =>
    case None =>
      assert r[|gs|].0 == a.1.bufferId;
  }

  lemma BufferIdsSnoc(p: seq<Named>, a: Named)
    ensures BufferIds(p + [a]) == BufferIds(p) + {a.1.bufferId}
  {
    var q := p + [a];
    forall x | x in BufferIds(q) ensures x in BufferIds(p) + {a.1.bufferId} {
      var i :| 0 <= i < |q| && q[i].1.bufferId == x;
      if i < |p| {
        assert p[i] == q[i];
      }
    }
    forall x | x in BufferIds(p) ensures x in BufferIds(q) {
      var i :| 0 <= i < |p| && p[i].1.bufferId == x;
      assert q[i] == p[i];
    }
    assert q[|p|] == a;
  }

  lemma {:induction false} GroupByBufferWell(attrs: seq<Named>)
    ensures WellGrouped(GroupByBuffer(attrs))
    decreases |attrs|
  {
    if attrs != [] {
      var p := attrs[..|attrs| - 1];
      GroupByBufferWell(p);
      AddToGroupsWell(GroupByBuffer(p), attrs[|attrs| - 1]);
    }
  }

  lemma {:induction false} GroupByBufferFlatten(attrs: seq<Named>)
    ensures multiset(Flatten(GroupByBuffer(attrs))) == multiset(attrs)
    decreases |attrs|
  {
    if attrs != [] {
      var p := attrs[..|attrs| - 1];
      GroupByBufferFlatten(p);
      AddToGroupsFlatten(GroupByBuffer(p), attrs[|attrs| - 1]);
      assert attrs == p + [attrs[|attrs| - 1]];
    }
  }

  lemma {:induction false} GroupByBufferIds(attrs: seq<Named>)
    ensures GroupIds(GroupByBuffer(attrs)) == BufferIds(attrs)
    decreases |attrs|
  {
    if attrs != [] {
      var p := attrs[..|attrs| - 1];
      GroupByBufferIds(p);
      AddToGroupsIds(GroupByBuffer(p), attrs[|attrs| - 1]);
      assert attrs == p + [attrs[|attrs| - 1]];
      BufferIdsSnoc(p, attrs[|attrs| - 1]);
    }
  }

  lemma SortEachMembers(gs: seq<Group>, j: nat)
    requires j < |gs|
    ensures |SortEach(gs)[j].1| == |gs[j].1|
    ensures multiset(SortEach(gs)[j].1) == multiset(gs[j].1)
    ensures SortedBy(SortEach(gs)[j].1, AttrLe)
  {
    AttrLeTotalPreorder();
    SortByPermutes(gs[j].1, AttrLe);
    SortBySorted(gs[j].1, AttrLe);
  }

  lemma SortEachShape(gs: seq<Group>)
    requires WellGrouped(gs)
    ensures WellGrouped(SortEach(gs))
    ensures forall j :: 0 <= j < |gs| ==> SortedBy(SortEach(gs)[j].1, AttrLe)
  {
    var r := SortEach(gs);
    forall j | 0 <= j < |gs|
      ensures r[j].0 == gs[j].0 && r[j].1 != [] && SortedBy(r[j].1, AttrLe)
      ensures forall p :: 0 <= p < |r[j].1| ==> r[j].1[p].1.bufferId == r[j].0
    {
      SortEachMembers(gs, j);
      forall p | 0 <= p < |r[j].1| ensures r[j].1[p].1.bufferId == r[j].0 {
        assert r[j].1[p] in multiset(gs[j].1);
      }
    }
  }

  lemma SortEachIds(gs: seq<Group>)
    ensures GroupIds(SortEach(gs)) == GroupIds(gs)
  {
    var r := SortEach(gs);
    forall x | x in GroupIds(gs) ensures x in GroupIds(r) {
      var k :| 0 <= k < |gs| && gs[k].0 == x;
      assert r[k].0 == x;
    }
    forall x | x in GroupIds(r) ensures x in GroupIds(gs) {
      var k :| 0 <= k < |r| && r[k].0 == x;
      assert gs[k].0 == x;
    }
  }

  lemma {:induction false} SortEachFlatten(gs: seq<Group>)
    ensures multiset(Flatten(SortEach(gs))) == multiset(Flatten(gs))
    decreases |gs|
  {
    if gs != [] {
      var g' := gs[..|gs| - 1];
      SortEachFlatten(g');
      var r := SortEach(gs);
      assert r[..|r| - 1] == SortEach(g');
      SortByPermutes(gs[|gs| - 1].1, AttrLe);
    }
  }

  lemma {:induction false} FlattenPermutation(a: seq<Group>, b: seq<Group>)
    requires multiset(a) == multiset(b)
    ensures multiset(Flatten(a)) == multiset(Flatten(b))
    decreases |a|
  {
    if a == [] {
      assert |b| == |multiset(b)|;
    } else {
      var x := a[|a| - 1];
      var a' := a[..|a| - 1];
      assert a == a' + [x];
      assert x in multiset(b);
      var k :| 0 <= k < |b| && b[k] == x;
      var b' := b[..k] + b[k + 1..];
      assert b == b[..k] + [x] + b[k + 1..];
      assert multiset(b') == multiset(b) - multiset{x};
      FlattenPermutation(a', b');
      FlattenConcat(b[..k] + [x], b[k + 1..]);
      FlattenConcat(b[..k], [x]);
      FlattenConcat(b[..k], b[k + 1..]);
      FlattenSingle(x);
    }
  }

  lemma AttrLeTotalPreorder()
    ensures TotalPreorder(AttrLe)
  {
    forall a: Named ensures AttrLe(a, a) {
      StrLeRefl(a.0);
    }
    forall a: Named, b: Named ensures AttrLe(a, b) || AttrLe(b, a) {
      StrLeTotal(a.0, b.0);
    }
    forall a: Named, b: Named, c: Named | AttrLe(a, b) && AttrLe(b, c) ensures AttrLe(a, c) {
      if a.1.offset == b.1.offset == c.1.offset {
        StrLeTrans(a.0, b.0, c.0);
      }
    }
  }

  lemma GroupLeTotalPreorder()
    ensures TotalPreorder(GroupLe)
  {
    forall a: Group ensures GroupLe(a, a) {
      StrLeRefl(FirstName(a));
    }
    forall a: Group, b: Group ensures GroupLe(a, b) || GroupLe(b, a) {
      StrLeTotal(FirstName(a), FirstName(b));
    }
    forall a: Group, b: Group, c: Group | GroupLe(a, b) && GroupLe(b, c) ensures GroupLe(a, c) {
      StrLeTrans(FirstName(a), FirstName(b), FirstName(c));
    }
  }

  /** Reordering well-formed groups keeps them well formed: the ids stay distinct. */
  lemma PermutedGroups(a: seq<Group>, b: seq<Group>)
    requires WellGrouped(a) && multiset(a) == multiset(b)
    ensures WellGrouped(b) && GroupIds(b) == GroupIds(a)
  {
    assert Distinct(a);
    DistinctPermutation(a, b);
    forall j | 0 <= j < |b| ensures exists i :: 0 <= i < |a| && a[i] == b[j] {
      assert b[j] in multiset(a);
    }
    forall j, k | 0 <= j < k < |b| ensures b[j].0 != b[k].0 {
      var i1 :| 0 <= i1 < |a| && a[i1] == b[j];
      var i2 :| 0 <= i2 < |a| && a[i2] == b[k];
      assert b[j] != b[k];
    }
    forall x | x in GroupIds(a) ensures x in GroupIds(b) {
      var i :| 0 <= i < |a| && a[i].0 == x;
      assert a[i] in multiset(b);
    }
  }

  /** What the final grouping satisfies; the lemmas below read properties off it. */
  lemma {:induction false} SortedGroupsShape(attrs: seq<Named>)
    ensures WellGrouped(SortedGroups(attrs))
    ensures multiset(Flat(attrs)) == multiset(attrs)
    ensures GroupIds(SortedGroups(attrs)) == BufferIds(attrs)
    ensures SortedBy(SortedGroups(attrs), GroupLe)
    ensures forall j :: 0 <= j < |SortedGroups(attrs)| ==> SortedBy(SortedGroups(attrs)[j].1, AttrLe)
  {
    var g0 := GroupByBuffer(attrs);
    var g1 := SortEach(g0);
    var gs := SortedGroups(attrs);
    GroupByBufferWell(attrs);
    GroupByBufferFlatten(attrs);
    GroupByBufferIds(attrs);
    SortEachShape(g0);
    SortEachIds(g0);
    SortEachFlatten(g0);
    SortByPermutes(g1, GroupLe);
    GroupLeTotalPreorder();
    SortBySorted(g1, GroupLe);
    PermutedGroups(g1, gs);
    FlattenPermutation(g1, gs);
    forall j | 0 <= j < |gs| ensures SortedBy(gs[j].1, AttrLe) {
      assert gs[j] in multiset(g1);
    }
  }

  /** A permutation of attributes with distinct names still has distinct names. */
  lemma PermutedNames(a: seq<Named>, b: seq<Named>)
    requires NamesDistinct(a) && multiset(a) == multiset(b)
    ensures NamesDistinct(b)
  {
    assert Distinct(a);
    DistinctPermutation(a, b);
    forall j, k | 0 <= j < k < |b| ensures b[j].0 != b[k].0 {
      assert b[j] in multiset(a) && b[k] in multiset(a);
      var i1 :| 0 <= i1 < |a| && a[i1] == b[j];
      var i2 :| 0 <= i2 < |a| && a[i2] == b[k];
      assert b[j] != b[k];
    }
  }

  /** The attribute names in `s`. */
  function Names(s: seq<Named>): set<string>
    decreases |s|
  {
    if s == [] then {} else Names(s[..|s| - 1]) + {s[|s| - 1].0}
  }

  lemma {:induction false} NamesMember(s: seq<Named>, x: string)
    ensures x in Names(s) <==> exists i :: 0 <= i < |s| && s[i].0 == x
    decreases |s|
  {
    if s != [] {
      var p := s[..|s| - 1];
      NamesMember(p, x);
      if x in Names(p) {
        var i :| 0 <= i < |p| && p[i].0 == x;
        assert s[i].0 == x;
      }
      if exists i :: 0 <= i < |s| && s[i].0 == x {
        var i :| 0 <= i < |s| && s[i].0 == x;
        if i < |p| {
          assert p[i].0 == x;
        }
      }
    }
  }

  lemma NamesSnoc(s: seq<Named>, c: nat)
    requires c < |s|
    ensures Names(s[..c + 1]) == Names(s[..c]) + {s[c].0}
  {
    assert s[..c + 1][..c] == s[..c];
  }

  lemma NamesPermutation(a: seq<Named>, b: seq<Named>)
    requires multiset(a) == multiset(b)
    ensures Names(a) == Names(b)
  {
    forall x | x in Names(a) ensures x in Names(b) {
      NamesMember(a, x);
      var i :| 0 <= i < |a| && a[i].0 == x;
      assert a[i] in multiset(b);
      NamesMember(b, x);
    }
    forall x | x in Names(b) ensures x in Names(a) {
      NamesMember(b, x);
      var i :| 0 <= i < |b| && b[i].0 == x;
      assert b[i] in multiset(a);
      NamesMember(a, x);
    }
  }

  // ---- the generator ----

  /** The buffer layout the source builds for group `j`, with locations starting at `start`. */
  ghost predicate DescribesGroup(d: OwnedVertexBufferDesc, g: Group, start: nat)
  {
    && g.1 != []
    && d.arrayStride == g.1[0].1.stride
    && d.stepMode == g.1[0].1.stepMode
    && d.buffer == g.0
    && |d.attributes| == |g.1|
    && forall p :: 0 <= p < |g.1| ==>
      && d.attributes[p].format == g.1[p].1.format
      && d.attributes[p].offset == g.1[p].1.offset
      && d.attributes[p].shaderLocation as int == start + p
  }

  /** Buffer layout j describes group j, its locations starting after all earlier groups. */
  ghost predicate AllDescribed(buffers: seq<OwnedVertexBufferDesc>, gs: seq<Group>)
  {
    |buffers| == |gs| && forall j :: 0 <= j < |gs| ==> DescribesGroup(buffers[j], gs[j], Offset(gs, j))
  }

  /** The first `n` buffer layouts describe the first `n` groups. */
  ghost predicate PrefixDescribed(buffers: seq<OwnedVertexBufferDesc>, gs: seq<Group>, n: nat)
    decreases n
  {
    && n <= |gs| && |buffers| == n
    && (n > 0 ==>
      PrefixDescribed(buffers[..n - 1], gs, n - 1) && DescribesGroup(buffers[n - 1], gs[n - 1], Offset(gs, n - 1)))
  }

  lemma PrefixDescribedSnoc(buffers: seq<OwnedVertexBufferDesc>, gs: seq<Group>, j: nat, d: OwnedVertexBufferDesc)
    requires PrefixDescribed(buffers, gs, j) && j < |gs| && DescribesGroup(d, gs[j], Offset(gs, j))
    ensures PrefixDescribed(buffers + [d], gs, j + 1)
  {
    assert (buffers + [d])[..j] == buffers;
  }

  lemma {:induction false} PrefixDescribedIndex(buffers: seq<OwnedVertexBufferDesc>, gs: seq<Group>, n: nat, k: nat)
    requires PrefixDescribed(buffers, gs, n) && k < n
    ensures DescribesGroup(buffers[k], gs[k], Offset(gs, k))
    decreases n
  {
    if k < n - 1 {
      PrefixDescribedIndex(buffers[..n - 1], gs, n - 1, k);
    }
  }

  lemma PrefixDescribedAll(buffers: seq<OwnedVertexBufferDesc>, gs: seq<Group>)
    requires PrefixDescribed(buffers, gs, |gs|)
    ensures AllDescribed(buffers, gs)
  {
    forall k | 0 <= k < |gs| ensures DescribesGroup(buffers[k], gs[k], Offset(gs, k)) {
      PrefixDescribedIndex(buffers, gs, |gs|, k);
    }
  }

  /** The location map after the first `n` attributes of `flat`: each name maps to its position, a later one overriding. */
  function LocationMap(flat: seq<Named>, n: nat): map<string, u32>
    requires n <= |flat| < U32_MODULUS
  {
    if n == 0 then map[] else LocationMap(flat, n - 1)[flat[n - 1].0 := (n - 1) as u32]
  }

  /** With distinct names every attribute keeps its own position, and the keys are exactly the names seen. */
  lemma {:induction false} LocationMapFacts(flat: seq<Named>, n: nat)
    requires n <= |flat| < U32_MODULUS && NamesDistinct(flat)
    ensures forall i :: 0 <= i < n ==> flat[i].0 in LocationMap(flat, n) && LocationMap(flat, n)[flat[i].0] as int == i
    ensures LocationMap(flat, n).Keys == Names(flat[..n])
    decreases n
  {
    if n == 0 {
      assert flat[..0] == [];
    } else {
      LocationMapFacts(flat, n - 1);
      var m := LocationMap(flat, n - 1);
      var last := flat[n - 1].0;
      assert LocationMap(flat, n) == m[last := (n - 1) as u32];
      forall i | 0 <= i < n
        ensures flat[i].0 in LocationMap(flat, n) && LocationMap(flat, n)[flat[i].0] as int == i
      {
        if i < n - 1 {
          assert flat[i].0 != last;
        }
      }
      NamesSnoc(flat, n - 1);
    }
  }

  /** The fields and the location map after the first `n` attributes of the location order. */
  ghost predicate Emitted(flat: seq<Named>, n: nat, fields: seq<WgslField>, locations: map<string, u32>)
  {
    && n <= |flat| < U32_MODULUS
    && fields == FieldLines(flat)[..n]
    && locations == LocationMap(flat, n)
  }

  lemma EmittedAll(flat: seq<Named>, fields: seq<WgslField>, locations: map<string, u32>)
    requires Emitted(flat, |flat|, fields, locations) && NamesDistinct(flat)
    ensures fields == FieldLines(flat)
    ensures forall i :: 0 <= i < |flat| ==> flat[i].0 in locations && locations[flat[i].0] as int == i
    ensures locations.Keys == Names(flat)
  {
    assert flat[..|flat|] == flat;
    assert FieldLines(flat)[..|flat|] == FieldLines(flat);
    LocationMapFacts(flat, |flat|);
  }

  lemma EmittedSnoc(flat: seq<Named>, n: nat, fields: seq<WgslField>, locations: map<string, u32>)
    requires Emitted(flat, n, fields, locations) && n < |flat|
    ensures Emitted(flat, n + 1, fields + [WgslField(n, flat[n].0, flat[n].1.format)],
      locations[flat[n].0 := n as u32])
  {
    assert FieldLines(flat)[..n + 1] == FieldLines(flat)[..n] + [WgslField(n, flat[n].0, flat[n].1.format)];
  }

  /** The first `p` wgpu attributes of a group, with locations from `start`. */
  ghost predicate AttributesFor(ws: seq<VertexAttribute>, group: seq<Named>, start: nat, p: nat)
  {
    && |ws| == p <= |group|
    && forall q :: 0 <= q < p ==>
      && ws[q].format == group[q].1.format
      && ws[q].offset == group[q].1.offset
      && ws[q].shaderLocation as int == start + q
  }

  lemma AttributesForSnoc(ws: seq<VertexAttribute>, group: seq<Named>, start: nat, p: nat)
    requires AttributesFor(ws, group, start, p) && p < |group| && start + p < U32_MODULUS
    ensures AttributesFor(ws + [VertexAttribute(group[p].1.format, group[p].1.offset, (start + p) as u32)],
      group, start, p + 1)
  {
  }

  lemma DescribesGroupIntro(d: OwnedVertexBufferDesc, g: Group, start: nat)
    requires g.1 != []
    requires d.arrayStride == g.1[0].1.stride && d.stepMode == g.1[0].1.stepMode && d.buffer == g.0
    requires AttributesFor(d.attributes, g.1, start, |g.1|)
    ensures DescribesGroup(d, g, start)
  {
  }

  lemma GroupInFlat(gs: seq<Group>, j: nat)
    requires j < |gs| && gs[j].1 != []
    ensures Offset(gs, j) + |gs[j].1| <= |Flatten(gs)|
    ensures forall q :: 0 <= q < |gs[j].1| ==> Flatten(gs)[Offset(gs, j) + q] == gs[j].1[q]
  {
    OffsetFlatten(gs, j);
    FlattenIndex(gs, j, |gs[j].1| - 1);
    forall q | 0 <= q < |gs[j].1| ensures Flatten(gs)[Offset(gs, j) + q] == gs[j].1[q] {
      FlattenIndex(gs, j, q);
    }
  }

  /**
   * The per-attribute loop for buffer group `j`: each attribute takes the
   * next location, gets its wgpu attribute and its WGSL field, and is
   * recorded in the location map. The group occupies the locations from
   * `start`, the number of attributes in the groups before it.
   */
  method EmitGroup(gs: seq<Group>, j: nat, start: nat, fields0: seq<WgslField>, locations0: map<string, u32>)
    returns (desc: OwnedVertexBufferDesc, fields: seq<WgslField>, locations: map<string, u32>)
    requires j < |gs| && gs[j].1 != [] && start == Offset(gs, j)
    requires Emitted(Flatten(gs), start, fields0, locations0)
    ensures DescribesGroup(desc, gs[j], start)
    ensures Emitted(Flatten(gs), start + |gs[j].1|, fields, locations)
  {
    ghost var flat := Flatten(gs);
    GroupInFlat(gs, j);
    var group := gs[j].1;
    var first := group[0].1;
    var wgpuAttributes: seq<VertexAttribute> := [];
    fields, locations := fields0, locations0;
    var p := 0;
    while p < |group|
      invariant 0 <= p <= |group|
      invariant AttributesFor(wgpuAttributes, group, start, p)
      invariant Emitted(flat, start + p, fields, locations)
    {
      var location := start + p;
      var (name, attr) := group[p];
      assert flat[location] == group[p];
      AttributesForSnoc(wgpuAttributes, group, start, p);
      wgpuAttributes := wgpuAttributes + [VertexAttribute(attr.format, attr.offset, location as u32)];
      EmittedSnoc(flat, location, fields, locations);
      fields := fields + [WgslField(location, name, attr.format)];
      locations := locations[name := location as u32];
      p := p + 1;
    }
    desc := OwnedVertexBufferDesc(first.stride, first.stepMode, wgpuAttributes, gs[j].0);
    DescribesGroupIntro(desc, gs[j], start);
  }

  /** The grouping loop over the attribute map. */
  method GroupAttributes(attrs: seq<Named>) returns (groups: seq<Group>)
    ensures groups == GroupByBuffer(attrs)
  {
    groups := [];
    var n := 0;
    while n < |attrs|
      invariant 0 <= n <= |attrs|
      invariant groups == GroupByBuffer(attrs[..n])
    {
      assert attrs[..n + 1][..n] == attrs[..n];
      groups := AddToGroups(groups, attrs[n]);
      n := n + 1;
    }
    assert attrs[..n] == attrs;
  }

  /** The loop over the sorted groups, carrying `current_location`. */
  method AssignLocations(gs: seq<Group>)
    returns (buffers: seq<OwnedVertexBufferDesc>, fields: seq<WgslField>, locations: map<string, u32>)
    requires forall j :: 0 <= j < |gs| ==> gs[j].1 != []
    requires |Flatten(gs)| < U32_MODULUS
    ensures AllDescribed(buffers, gs)
    ensures Emitted(Flatten(gs), |Flatten(gs)|, fields, locations)
  {
    buffers, fields, locations := [], [], map[];
    var current: nat := 0;
    var j := 0;
    while j < |gs|
      invariant 0 <= j <= |gs|
      invariant current == Offset(gs, j)
      invariant PrefixDescribed(buffers, gs, j)
      invariant Emitted(Flatten(gs), current, fields, locations)
    {
      var desc;
      desc, fields, locations := EmitGroup(gs, j, current, fields, locations);
      PrefixDescribedSnoc(buffers, gs, j, desc);
      buffers := buffers + [desc];
      current := current + |gs[j].1|;
      j := j + 1;
    }
    PrefixDescribedAll(buffers, gs);
    OffsetFlatten(gs, j);
    assert gs[..j] == gs;
  }

  /**
   * `generate_vertex_layout`. `attrs` is the geometry's attribute map in its
   * iteration order. Locations count up across the groups in order.
   */
  method GenerateVertexLayout(attrs: seq<Named>) returns (layout: GeneratedVertexLayout)
    requires NamesDistinct(attrs)
    requires |attrs| < U32_MODULUS
    ensures AllDescribed(layout.buffers, SortedGroups(attrs))
    ensures layout.vertexInputCode == VertexInputCode(FieldLines(Flat(attrs)))
    ensures forall i :: 0 <= i < |Flat(attrs)| ==>
      Flat(attrs)[i].0 in layout.attributeLocations && layout.attributeLocations[Flat(attrs)[i].0] as int == i
    ensures layout.attributeLocations.Keys == Names(attrs)
  {
    var groups := GroupAttributes(attrs);
    var sortedGroups := SortBy(SortEach(groups), GroupLe);
    LocationsAreExactlyZeroToN(attrs);
    SortedGroupsShape(attrs);
    var buffers, fields, locations := AssignLocations(sortedGroups);
    EmittedAll(Flatten(sortedGroups), fields, locations);
    NamesPermutation(attrs, Flatten(sortedGroups));
    layout := GeneratedVertexLayout(buffers, VertexInputCode(fields), locations);
  }

  /** `to_signature`: stride, step mode and attributes of each buffer, in order. */
  function ToSignature(layout: GeneratedVertexLayout): (sig: VertexLayoutSignature)
    ensures |sig.buffers| == |layout.buffers|
    ensures forall j :: 0 <= j < |layout.buffers| ==>
      sig.buffers[j] == VertexBufferLayoutSignature(layout.buffers[j].arrayStride,
        layout.buffers[j].stepMode, layout.buffers[j].attributes)
  {
    VertexLayoutSignature(seq(|layout.buffers|, j requires 0 <= j < |layout.buffers| =>
      VertexBufferLayoutSignature(layout.buffers[j].arrayStride, layout.buffers[j].stepMode,
        layout.buffers[j].attributes)))
  }

  // ---- properties ----

  /** Each buffer with attributes gets exactly one buffer layout. */
  lemma OneLayoutPerBuffer(attrs: seq<Named>)
    ensures var gs := SortedGroups(attrs);
      && (forall j, k :: 0 <= j < k < |gs| ==> gs[j].0 != gs[k].0)
      && GroupIds(gs) == BufferIds(attrs)
  {
    SortedGroupsShape(attrs);
  }

  /** Locations 0 … n-1 are used, each by one attribute, and every attribute is declared once. */
  lemma LocationsAreExactlyZeroToN(attrs: seq<Named>)
    requires NamesDistinct(attrs)
    ensures |Flat(attrs)| == |attrs|
    ensures multiset(Flat(attrs)) == multiset(attrs)
    ensures NamesDistinct(Flat(attrs))
  {
    SortedGroupsShape(attrs);
    PermutedNames(attrs, Flat(attrs));
    assert |multiset(Flat(attrs))| == |multiset(attrs)|;
  }

  /** Inside a buffer attributes go by offset, then name; buffers go by their first attribute's name. */
  lemma LayoutOrder(attrs: seq<Named>)
    ensures var gs := SortedGroups(attrs);
      && (forall j :: 0 <= j < |gs| ==> gs[j].1 != [])
      && (forall j, p, q :: 0 <= j < |gs| && 0 <= p < q < |gs[j].1| ==> AttrLe(gs[j].1[p], gs[j].1[q]))
      && (forall j, k :: 0 <= j < k < |gs| ==> StrLe(gs[j].1[0].0, gs[k].1[0].0))
      && (forall j, p :: 0 <= j < |gs| && 0 <= p < |gs[j].1| ==> gs[j].1[p].1.bufferId == gs[j].0)
  {
    SortedGroupsShape(attrs);
  }

  /** Two layouts share a signature exactly when their buffer layouts agree one by one. */
  lemma SignatureIffSameBuffers(a: GeneratedVertexLayout, b: GeneratedVertexLayout)
    ensures ToSignature(a) == ToSignature(b) <==>
      (|a.buffers| == |b.buffers| &&
       forall j :: 0 <= j < |a.buffers| ==>
         a.buffers[j].arrayStride == b.buffers[j].arrayStride &&
         a.buffers[j].stepMode == b.buffers[j].stepMode &&
         a.buffers[j].attributes == b.buffers[j].attributes)
  {
    if |a.buffers| == |b.buffers| &&
       forall j :: 0 <= j < |a.buffers| ==>
         a.buffers[j].arrayStride == b.buffers[j].arrayStride &&
         a.buffers[j].stepMode == b.buffers[j].stepMode &&
         a.buffers[j].attributes == b.buffers[j].attributes
    {
      assert ToSignature(a).buffers == ToSignature(b).buffers;
    }
    if ToSignature(a) == ToSignature(b) {
      forall j | 0 <= j < |a.buffers|
        ensures a.buffers[j].arrayStride == b.buffers[j].arrayStride
        ensures a.buffers[j].stepMode == b.buffers[j].stepMode
        ensures a.buffers[j].attributes == b.buffers[j].attributes
      {
        assert ToSignature(a).buffers[j] == ToSignature(b).buffers[j];
      }
    }
  }
}
