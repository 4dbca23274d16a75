/**
 * Render stages: the fixed, totally ordered phases a frame is divided into.
 * The derived ordering of the enum compares discriminants, so `Order` is
 * both the sort key and the comparison.
 */
module Stage {
  import opened Wrappers

  datatype RenderStage =
    | PreProcess
    | ShadowMap
    | Opaque
    | Skybox
    | BeforeTransparent
    | Transparent
    | PostProcess
    | UI

  const AllStages: seq<RenderStage> :=
    [PreProcess, ShadowMap, Opaque, Skybox, BeforeTransparent, Transparent, PostProcess, UI]

  /** `order()`: the `#[repr(u8)]` discriminant. */
  function Order(s: RenderStage): (r: u8)
    ensures r < 8
    ensures AllStages[r] == s
  {
    match s
    case PreProcess => 0
    case ShadowMap => 1
    case Opaque => 2
    case Skybox => 3
    case BeforeTransparent => 4
    case Transparent => 5
    case PostProcess => 6
    case UI => 7
  }

  /** The derived `PartialOrd`: stages compare by discriminant. */
  predicate Less(a: RenderStage, b: RenderStage)
  {
    Order(a) < Order(b)
  }

  /** `name()`: a debug name per stage. */
  function Name(s: RenderStage): (r: string)
    ensures |r| > 0
  {
    match s
    case PreProcess => "PreProcess"
    case ShadowMap => "ShadowMap"
    case Opaque => "Opaque"
    case Skybox => "Skybox"
    case BeforeTransparent => "BeforeTransparent"
    case Transparent => "Transparent"
    case PostProcess => "PostProcess"
    case UI => "UI"
  }

  /** `order` is injective, so it is a total order on stages. */
  lemma OrderInjective(a: RenderStage, b: RenderStage)
    ensures Order(a) == Order(b) <==> a == b
  {
    assert AllStages[Order(a)] == a && AllStages[Order(b)] == b;
  }

  /** `order` enumerates 0..7 exactly once, in declaration order. */
  lemma OrderEnumerates(k: nat)
    requires k < 8
    ensures Order(AllStages[k]) == k
  {
  }

  /** The full chain PreProcess < ShadowMap < … < UI, including BeforeTransparent. */
  lemma StageChain()
    ensures Less(PreProcess, ShadowMap) && Less(ShadowMap, Opaque) && Less(Opaque, Skybox)
    ensures Less(Skybox, BeforeTransparent) && Less(BeforeTransparent, Transparent)
    ensures Less(Transparent, PostProcess) && Less(PostProcess, UI)
    ensures forall i, j :: 0 <= i < j < |AllStages| ==> Less(AllStages[i], AllStages[j])
  {
    forall i, j | 0 <= i < j < |AllStages| ensures Less(AllStages[i], AllStages[j]) {
      OrderEnumerates(i);
      OrderEnumerates(j);
    }
  }

  /** Distinct stages have distinct debug names. */
  lemma NameInjective(a: RenderStage, b: RenderStage)
    ensures Name(a) == Name(b) <==> a == b
  {
  }
}
