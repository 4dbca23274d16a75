/**
 * The parts of the glTF loader that are not calls into the glTF, JSON,
 * base64 or image libraries: interleaving per-attribute vertex streams
 * into one vertex buffer, the `data:` URI header checks (RFC 2397), the GLB
 * re-framing after a JSON patch (section 4.4 of the glTF 2.0
 * specification), the per-(texture, colour space) texture cache, and the
 * choice of a skin's root bone.
 */
module GltfLoader {
  import opened Wrappers
  import opened Text
  import opened Vertex
  import Assets = AssetStorage

  // ---------------------------------------------------------------------
  // Interleaved vertex buffers

  /** One attribute stream: `item_size` bytes per vertex, packed. */
  datatype Channel = Channel(name: string, data: seq<u8>, format: VertexFormat, itemSize: nat)

  /** An attribute of the interleaved buffer. */
  datatype Attribute = Attribute(name: string, format: VertexFormat, offset: nat, count: u32, stride: nat, stepMode: StepMode)

  /** The buffer (its label, size and bytes) and its attributes, in channel order. */
  datatype Interleaved = Interleaved(name: string, size: nat, data: seq<u8>, attributes: seq<Attribute>)

  function Zeros(n: nat): (z: seq<u8>)
    ensures |z| == n && forall i :: 0 <= i < n ==> z[i] == 0
  {
    seq(n, _ => 0)
  }

  /**
   * `count * size`, written as repeated addition so that the layout proofs
   * stay in linear arithmetic; `MulIsProduct` ties it to `*`.
   */
  function Mul(count: nat, size: nat): nat
    decreases count
  {
    if count == 0 then 0 else Mul(count - 1, size) + size
  }

  lemma {:induction false} MulIsProduct(count: nat, size: nat)
    ensures Mul(count, size) == count * size
    decreases count
  {
    if count > 0 {
      MulIsProduct(count - 1, size);
    }
  }

  lemma {:induction false} MulMonotone(a: nat, b: nat, size: nat)
    requires a <= b
    ensures Mul(a, size) <= Mul(b, size)
    decreases b - a
  {
    if a < b {
      MulMonotone(a, b - 1, size);
    }
  }

  /** The bytes of one vertex: the sum of the item sizes. */
  function Stride(chs: seq<Channel>): nat
    decreases |chs|
  {
    if chs == [] then 0 else Stride(chs[..|chs| - 1]) + chs[|chs| - 1].itemSize
  }

  /** Vertex `i`'s bytes of a channel, or zeros when the stream is too short to hold them. */
  function Chunk(ch: Channel, i: nat): (r: seq<u8>)
    ensures |r| == ch.itemSize
  {
    var start := Mul(i, ch.itemSize);
    if start + ch.itemSize <= |ch.data| then ch.data[start..start + ch.itemSize] else Zeros(ch.itemSize)
  }

  /** Vertex `i` of the interleaved buffer: its chunk of every channel, in channel order. */
  function VertexBytes(chs: seq<Channel>, i: nat): (r: seq<u8>)
    ensures |r| == Stride(chs)
    decreases |chs|
  {
    if chs == [] then [] else VertexBytes(chs[..|chs| - 1], i) + Chunk(chs[|chs| - 1], i)
  }

  /** The first `n` vertices, one after the other. */
  function Interleave(chs: seq<Channel>, n: nat): (r: seq<u8>)
    ensures |r| == Mul(n, Stride(chs))
    decreases n
  {
    if n == 0 then [] else Interleave(chs, n - 1) + VertexBytes(chs, n - 1)
  }

  /** One attribute per channel: its offset in the vertex, the vertex count, and the common stride. */
  function Attributes(chs: seq<Channel>, count: u32): (attrs: seq<Attribute>)
    ensures |attrs| == |chs|
    ensures forall k :: 0 <= k < |chs| ==>
              attrs[k].name == chs[k].name && attrs[k].format == chs[k].format &&
              attrs[k].offset == Stride(chs[..k]) && attrs[k].stride == Stride(chs) && attrs[k].count == count
  {
    seq(|chs|, k requires 0 <= k < |chs| =>
          Attribute(chs[k].name, chs[k].format, Stride(chs[..k]), count, Stride(chs), VertexStep))
  }

  lemma {:induction false} StrideStep(chs: seq<Channel>, k: nat)
    requires k < |chs|
    ensures Stride(chs[..k + 1]) == Stride(chs[..k]) + chs[k].itemSize
  {
    assert chs[..k + 1][..k] == chs[..k];
  }

  /** Adding channel `k` to the channels before it. */
  lemma {:induction false} ChannelStep(chs: seq<Channel>, k: nat, i: nat)
    requires k < |chs|
    ensures Stride(chs[..k + 1]) == Stride(chs[..k]) + chs[k].itemSize <= Stride(chs)
    ensures VertexBytes(chs[..k + 1], i) == VertexBytes(chs[..k], i) + Chunk(chs[k], i)
  {
    assert chs[..k + 1][..k] == chs[..k];
    StrideBound(chs, k);
  }

  lemma {:induction false} StrideBound(chs: seq<Channel>, k: nat)
    requires k < |chs|
    ensures Stride(chs[..k]) + chs[k].itemSize <= Stride(chs)
    decreases |chs|
  {
    if k < |chs| - 1 {
      assert chs[..|chs| - 1][..k] == chs[..k];
      StrideBound(chs[..|chs| - 1], k);
    } else {
      assert chs[..k] == chs[..|chs| - 1];
    }
  }

  /** Within a vertex, a channel's chunk starts at the sum of the item sizes before it. */
  lemma {:induction false} VertexBytesAt(chs: seq<Channel>, i: nat, k: nat, b: nat)
    requires k < |chs| && b < chs[k].itemSize
    ensures Stride(chs[..k]) + b < Stride(chs)
    ensures VertexBytes(chs, i)[Stride(chs[..k]) + b] == Chunk(chs[k], i)[b]
    decreases |chs|
  {
    StrideBound(chs, k);
    var init := chs[..|chs| - 1];
    if k < |chs| - 1 {
      assert init[..k] == chs[..k];
      VertexBytesAt(init, i, k, b);
    } else {
      assert chs[..k] == init;
    }
  }

  /** Vertex `i`'s bytes start at `i * stride`. */
  lemma {:induction false} InterleaveAt(chs: seq<Channel>, n: nat, i: nat, j: nat)
    requires i < n && j < Stride(chs)
    ensures Mul(i, Stride(chs)) + j < Mul(n, Stride(chs))
    ensures Interleave(chs, n)[Mul(i, Stride(chs)) + j] == VertexBytes(chs, i)[j]
    decreases n
  {
    if i < n - 1 {
      InterleaveAt(chs, n - 1, i, j);
    }
  }

  /** Byte `b` of vertex `i`'s item in a stream: the stream's byte, or zero when the stream is too short for the item. */
  function ItemByte(ch: Channel, i: nat, b: nat): u8
  {
    var start := Mul(i, ch.itemSize);
    if start + ch.itemSize <= |ch.data| && b < ch.itemSize then ch.data[start + b] else 0
  }

  lemma {:induction false} ChunkAt(ch: Channel, i: nat, b: nat)
    requires b < ch.itemSize
    ensures Chunk(ch, i)[b] == ItemByte(ch, i, b)
  {
  }

  /**
   * The layout of the interleaved buffer: byte `b` of channel `k` of
   * vertex `i` sits at `i * stride + offset_k + b` and is the stream's
   * byte, or zero when the stream is too short for vertex `i`.
   */
  lemma {:induction false} InterleaveLayout(chs: seq<Channel>, n: nat, i: nat, k: nat, b: nat)
    requires i < n && k < |chs| && b < chs[k].itemSize
    ensures Mul(i, Stride(chs)) + Stride(chs[..k]) + b < Mul(n, Stride(chs))
    ensures Interleave(chs, n)[Mul(i, Stride(chs)) + Stride(chs[..k]) + b] == ItemByte(chs[k], i, b)
  {
    var j := Stride(chs[..k]) + b;
    VertexBytesAt(chs, i, k, b);
    InterleaveAt(chs, n, i, j);
    ChunkAt(chs[k], i, b);
  }

  /** `copy_from_slice` into a region of the buffer. */
  method CopyInto(buf: array<u8>, dest: nat, src: seq<u8>)
    requires dest + |src| <= buf.Length
    modifies buf
    ensures buf[..] == old(buf[..])[..dest] + src + old(buf[..])[dest + |src|..]
  {
    for j := 0 to |src|
      invariant forall k :: 0 <= k < buf.Length && !(dest <= k < dest + j) ==> buf[k] == old(buf[k])
      invariant forall k :: 0 <= k < j ==> buf[dest + k] == src[k]
    {
      buf[dest + j] := src[j];
    }
    assert forall k :: 0 <= k < buf.Length ==> buf[..][k] == (old(buf[..])[..dest] + src + old(buf[..])[dest + |src|..])[k];
  }

  lemma {:induction false} ConcatAssoc(a: seq<u8>, b: seq<u8>, c: seq<u8>)
    ensures (a + b) + c == a + (b + c)
  {
  }

  /** One step of the inner loop: channel `ch`'s bytes for vertex `i` copied to `dest`, if the stream holds them. */
  method CopyChannel(buf: array<u8>, ch: Channel, i: nat, dest: nat, ghost prefix: seq<u8>, ghost m: nat)
    requires dest == |prefix| && ch.itemSize <= m && buf[..] == prefix + Zeros(m)
    modifies buf
    ensures buf[..] == prefix + Chunk(ch, i) + Zeros(m - ch.itemSize)
  {
    var srcStart := i * ch.itemSize;
    MulIsProduct(i, ch.itemSize);
    var srcEnd := srcStart + ch.itemSize;
    ghost var after := Zeros(m - ch.itemSize);
    assert Zeros(m) == Zeros(ch.itemSize) + after;
    ghost var before := buf[..];
    if srcEnd <= |ch.data| {
      assert ch.data[srcStart..srcEnd] == Chunk(ch, i);
      CopyInto(buf, dest, ch.data[srcStart..srcEnd]);
      assert before[..|prefix|] == prefix;
      assert before[|prefix| + ch.itemSize..] == after;
    } else {
      assert Chunk(ch, i) == Zeros(ch.itemSize);
      ConcatAssoc(prefix, Zeros(ch.itemSize), after);
    }
  }

  /** The bytes of vertex `i` up to channel `c`, after the first `i` vertices, in a buffer of zeros. */
  ghost predicate FilledUpTo(buf: seq<u8>, chs: seq<Channel>, i: nat, c: nat, rest: nat)
    requires c <= |chs|
  {
    Stride(chs[..c]) <= rest && buf == Interleave(chs, i) + VertexBytes(chs[..c], i) + Zeros(rest - Stride(chs[..c]))
  }

  /** One step of the inner loop, at the channel's offset within vertex `i`. */
  method FillChannel(buf: array<u8>, chs: seq<Channel>, offset: nat, vertexStart: nat, i: nat, c: nat, rest: nat)
    requires c < |chs| && vertexStart == Mul(i, Stride(chs)) && offset == Stride(chs[..c]) && Stride(chs) <= rest
    requires FilledUpTo(buf[..], chs, i, c, rest)
    modifies buf
    ensures FilledUpTo(buf[..], chs, i, c + 1, rest)
  {
    ChannelStep(chs, c, i);
    ghost var prefix := Interleave(chs, i) + VertexBytes(chs[..c], i);
    assert |prefix| == vertexStart + offset;
    CopyChannel(buf, chs[c], i, vertexStart + offset, prefix, rest - Stride(chs[..c]));
    ConcatAssoc(Interleave(chs, i), VertexBytes(chs[..c], i), Chunk(chs[c], i));
  }

  /** The first `i` vertices written, the rest of the buffer still zero. */
  ghost predicate VerticesFilled(buf: seq<u8>, chs: seq<Channel>, i: nat)
  {
    Mul(i, Stride(chs)) <= |buf| && buf == Interleave(chs, i) + Zeros(|buf| - Mul(i, Stride(chs)))
  }

  /** The inner loop: every channel's chunk of vertex `i` copied to its offset. */
  method FillVertex(buf: array<u8>, chs: seq<Channel>, offsets: seq<nat>, vertexStart: nat, i: nat)
    requires vertexStart == Mul(i, Stride(chs)) && Mul(i + 1, Stride(chs)) <= buf.Length
    requires |offsets| == |chs| && forall k :: 0 <= k < |chs| ==> offsets[k] == Stride(chs[..k])
    requires VerticesFilled(buf[..], chs, i)
    modifies buf
    ensures VerticesFilled(buf[..], chs, i + 1)
  {
    var rest := buf.Length - vertexStart;
    assert FilledUpTo(buf[..], chs, i, 0, rest) by {
      assert Interleave(chs, i) + VertexBytes(chs[..0], i) == Interleave(chs, i);
    }
    for c := 0 to |chs|
      invariant FilledUpTo(buf[..], chs, i, c, rest)
    {
      FillChannel(buf, chs, offsets[c], vertexStart, i, c, rest);
    }
    assert chs[..|chs|] == chs;
  }

  /**
   * `build_interleaved_buffer`: nothing for no channels or no vertices;
   * otherwise the interleaved bytes, `stride * vertex_count` of them, and
   * one attribute per channel.
   */
  method BuildInterleavedBuffer(bufferName: string, chs: seq<Channel>, n: nat) returns (r: Option<Interleaved>)
    ensures r.None? <==> chs == [] || n == 0
    ensures r.Some? ==> r.value == Interleaved(bufferName, Stride(chs) * n, Interleave(chs, n), Attributes(chs, n % U32_MODULUS))
  {
    if chs == [] || n == 0 {
      return None;
    }
    var stride := TotalStride(chs);
    var size := stride * n;
    MulIsProduct(n, stride);
    var buf := new u8[size](_ => 0);
    var offsets := Offsets(chs);
    assert buf[..] == Zeros(size) by {
      assert forall j :: 0 <= j < size ==> buf[..][j] == Zeros(size)[j];
    }
    FillVertices(buf, chs, offsets, stride, n);
    var attrs := MakeAttributes(chs, offsets, stride, n);
    r := Some(Interleaved(bufferName, size, buf[..], attrs));
  }

  /** `channels.iter().map(|c| c.item_size).sum()`. */
  method TotalStride(chs: seq<Channel>) returns (stride: nat)
    ensures stride == Stride(chs)
  {
    stride := 0;
    for k := 0 to |chs|
      invariant stride == Stride(chs[..k])
    {
      StrideStep(chs, k);
      stride := stride + chs[k].itemSize;
    }
    assert chs[..|chs|] == chs;
  }

  /** The offsets loop: the running sum of the item sizes before each channel. */
  method Offsets(chs: seq<Channel>) returns (offsets: seq<nat>)
    ensures |offsets| == |chs| && forall k :: 0 <= k < |chs| ==> offsets[k] == Stride(chs[..k])
  {
    offsets := [];
    var current := 0;
    for k := 0 to |chs|
      invariant |offsets| == k && current == Stride(chs[..k])
      invariant forall j :: 0 <= j < k ==> offsets[j] == Stride(chs[..j])
    {
      StrideStep(chs, k);
      offsets := offsets + [current];
      current := current + chs[k].itemSize;
    }
  }

  /** The vertex loop over a zeroed buffer. */
  method FillVertices(buf: array<u8>, chs: seq<Channel>, offsets: seq<nat>, stride: nat, n: nat)
    requires stride == Stride(chs) && buf.Length == Mul(n, stride) && buf[..] == Zeros(buf.Length)
    requires |offsets| == |chs| && forall k :: 0 <= k < |chs| ==> offsets[k] == Stride(chs[..k])
    modifies buf
    ensures buf[..] == Interleave(chs, n)
  {
    assert VerticesFilled(buf[..], chs, 0) by {
      assert buf[..] == Interleave(chs, 0) + Zeros(buf.Length);
    }
    for i := 0 to n
      invariant VerticesFilled(buf[..], chs, i)
    {
      var vertexStart := i * stride;
      MulIsProduct(i, stride);
      MulMonotone(i + 1, n, stride);
      FillVertex(buf, chs, offsets, vertexStart, i);
    }
    assert buf[..] == Interleave(chs, n) + [];
  }

  /** The attributes loop: one per channel, at its offset, with the vertex count cast to `u32`. */
  method MakeAttributes(chs: seq<Channel>, offsets: seq<nat>, stride: nat, n: nat) returns (attrs: seq<Attribute>)
    requires stride == Stride(chs)
    requires |offsets| == |chs| && forall k :: 0 <= k < |chs| ==> offsets[k] == Stride(chs[..k])
    ensures attrs == Attributes(chs, n % U32_MODULUS)
  {
    attrs := [];
    for k := 0 to |chs|
      invariant attrs == Attributes(chs, n % U32_MODULUS)[..k]
    {
      attrs := attrs + [Attribute(chs[k].name, chs[k].format, offsets[k], n % U32_MODULUS, stride, VertexStep)];
    }
  }

  // ---------------------------------------------------------------------
  // `data:` URIs

  datatype UriError = NotDataUri | InvalidDataUri | UnsupportedEncoding | Base64Error

  /** `find`: the first position of `c`. */
  function Find(s: string, c: char): (r: Option<nat>)
    ensures r.Some? ==> r.value < |s| && s[r.value] == c && c !in s[..r.value]
    ensures r.None? ==> c !in s
    decreases |s|
  {
    if s == [] then None
    else if s[0] == c then assert s[..0] == []; Some(0)
    else
      match Find(s[1..], c)
      case None => None
      case Some(i) =>
        assert s[..i + 1] == [s[0]] + s[1..][..i];
        Some(i + 1)
  }

  /**
   * `decode_data_uri`: a `data:` prefix, then a header up to the first
   * comma that ends in `;base64`, then the payload handed to the base64
   * decoder (a parameter: it is a library call).
   */
  function DecodeDataUri(uri: string, base64: string -> Option<seq<u8>>): Result<seq<u8>, UriError>
  {
    if !StartsWith(uri, "data:") then Err(NotDataUri)
    else
      match Find(uri, ',')
      case None => Err(InvalidDataUri)
      case Some(comma) =>
        if !EndsWith(uri[..comma], ";base64") then Err(UnsupportedEncoding)
        else
          match base64(uri[comma + 1..])
          case None => Err(Base64Error)
          case Some(bytes) => Ok(bytes)
  }

  /** A base64 data URI gives back exactly what its payload decodes to; commas in the payload are payload. */
  lemma {:induction false} DataUriRoundTrip(mediaType: string, payload: string, base64: string -> Option<seq<u8>>)
    requires ',' !in mediaType
    ensures DecodeDataUri("data:" + mediaType + ";base64," + payload, base64) ==
              match base64(payload) case None => Err(Base64Error) case Some(bytes) => Ok(bytes)
  {
    var header := "data:" + mediaType + ";base64";
    var uri := header + "," + payload;
    assert "data:" + mediaType + ";base64," + payload == uri;
    assert uri[..5] == "data:";
    FindAfterPrefix(header, payload);
    assert uri[..|header|] == header;
    assert header[|header| - 7..] == ";base64";
    assert uri[|header| + 1..] == payload;
  }

  lemma {:induction false} FindAfterPrefix(header: string, payload: string)
    requires ',' !in header
    ensures Find(header + "," + payload, ',') == Some(|header|)
  {
    var s := header + "," + payload;
    assert s[|header|] == ',';
    var r := Find(s, ',');
    NotInPrefix(s, r.value, |header|, ',');
  }

  lemma {:induction false} NotInPrefix(s: string, k: nat, j: nat, c: char)
    ensures k <= |s| && c !in s[..k] && j < k ==> s[j] != c
  {
    if k <= |s| && j < k {
      assert s[..k][j] == s[j];
    }
  }

  /** The three header errors: no `data:` prefix, no comma, or a header not ending in `;base64`. */
  lemma {:induction false} DataUriHeaderErrors(uri: string, base64: string -> Option<seq<u8>>)
    ensures DecodeDataUri(uri, base64) == Err(NotDataUri) <==> !StartsWith(uri, "data:")
    ensures DecodeDataUri(uri, base64) == Err(InvalidDataUri) <==> StartsWith(uri, "data:") && ',' !in uri
    ensures DecodeDataUri(uri, base64).Ok? ==>
              exists comma :: 0 <= comma < |uri| && uri[comma] == ',' && ',' !in uri[..comma] &&
                EndsWith(uri[..comma], ";base64") && base64(uri[comma + 1..]) == Some(DecodeDataUri(uri, base64).value)
  {
  }

  // ---------------------------------------------------------------------
  // GLB re-framing

  /** The little-endian bytes of a `u32`. */
  function Le32(x: u32): (r: seq<u8>)
    ensures |r| == 4
  {
    var q1 := x / 0x100;
    var q2 := q1 / 0x100;
    [x % 0x100, q1 % 0x100, q2 % 0x100, q2 / 0x100]
  }

  /** `u32::from_le_bytes` at a position. */
  function ReadLe32(s: seq<u8>, at: nat): u32
    requires at + 4 <= |s|
  {
    s[at] as int + 0x100 * s[at + 1] as int + 0x1_0000 * s[at + 2] as int + 0x100_0000 * s[at + 3] as int
  }

  lemma {:induction false} Le32RoundTrip(x: u32, s: seq<u8>, at: nat)
    requires at + 4 <= |s| && s[at..at + 4] == Le32(x)
    ensures ReadLe32(s, at) == x
  {
    var q1 := x / 0x100;
    var q2 := q1 / 0x100;
    assert s[at] == s[at..at + 4][0] == x % 0x100 && s[at + 1] == s[at..at + 4][1] == q1 % 0x100;
    assert s[at + 2] == s[at..at + 4][2] == q2 % 0x100 && s[at + 3] == s[at..at + 4][3] == q2 / 0x100;
    assert x == x % 0x100 + 0x100 * q1;
    assert q1 == q1 % 0x100 + 0x100 * q2;
    assert q2 == q2 % 0x100 + 0x100 * (q2 / 0x100);
  }

  const GLB_JSON: u32 := 0x4E4F_534A

  /** What the JSON library and `patch_json_value` make of the JSON chunk. */
  datatype Patch = Unparsable | Unchanged | Patched(json: seq<u8>)

  /**
   * The header decision as written: a short input, or a version other
   * than 2, or a first chunk that is not JSON is passed through; a header or
   * chunk past the end of the data is a slice out of bounds, which panics.
   */
  datatype Framing = PassThrough | OutOfBounds | JsonChunk(length: nat)

  function FrameGlb(data: seq<u8>): Framing
  {
    if |data| < 12 then PassThrough
    else if ReadLe32(data, 4) != 2 then PassThrough
    else if |data| < 20 then OutOfBounds
    else if ReadLe32(data, 16) != GLB_JSON then PassThrough
    else if 20 + ReadLe32(data, 12) > |data| then OutOfBounds
    else JsonChunk(ReadLe32(data, 12))
  }

  /** A 12-byte GLB header of version 2 with no chunk makes the chunk-header read panic. */
  lemma HeaderOnlyGlbPanics()
    ensures FrameGlb([0x67, 0x6C, 0x54, 0x46, 2, 0, 0, 0, 12, 0, 0, 0]) == OutOfBounds
  {
  }

  /** The intended decision: data too short for what its header claims is passed through, untouched. */
  function FrameGlbChecked(data: seq<u8>): (f: Framing)
    ensures f != OutOfBounds
    ensures f.JsonChunk? ==> 20 + f.length <= |data|
  {
    match FrameGlb(data)
    case OutOfBounds => PassThrough
    case f => f
  }

  /** The two decisions agree on every input on which the one as written does not panic. */
  lemma {:induction false} FrameGlbCheckedAgrees(data: seq<u8>)
    ensures FrameGlb(data) != OutOfBounds ==> FrameGlbChecked(data) == FrameGlb(data)
    ensures FrameGlbChecked([0x67, 0x6C, 0x54, 0x46, 2, 0, 0, 0, 12, 0, 0, 0]) == PassThrough
  {
    HeaderOnlyGlbPanics();
  }

  /** `n` ASCII spaces. */
  function Spaces(n: nat): (s: seq<u8>)
    ensures |s| == n && forall i :: 0 <= i < n ==> s[i] == 0x20
  {
    seq(n, _ => 0x20)
  }

  /** The JSON chunk length after padding to a multiple of four. */
  function PaddedLength(json: seq<u8>): (n: nat)
    ensures n % 4 == 0 && |json| <= n < |json| + 4
  {
    var r := |json| % 4;
    assert |json| == |json| / 4 * 4 + r;
    if r == 0 then |json| else |json| + (4 - r)
  }

  /**
   * The bytes `sanitize_glb` builds: the first eight header bytes, the
   * total length, the padded chunk length, the chunk type, the new JSON,
   * the spaces, and whatever followed the old JSON chunk.
   */
  function Reframe(data: seq<u8>, oldLength: nat, json: seq<u8>): seq<u8>
    requires 20 + oldLength <= |data|
  {
    var padded := PaddedLength(json);
    var body := Le32(padded % U32_MODULUS) + Le32(GLB_JSON) + json + Spaces(padded - |json|) + data[20 + oldLength..];
    data[..8] + Le32((12 + |body|) % U32_MODULUS) + body
  }

  /**
   * The re-framed GLB as section 4.4 of the glTF 2.0 specification lays it
   * out: the first eight header bytes kept, the total length at byte 8, the
   * new JSON chunk padded with spaces to a multiple of four and its length at
   * byte 12, the chunk type kept, and every byte after the old JSON chunk kept
   * after the new one.
   */
  ghost predicate Reframed(out: seq<u8>, data: seq<u8>, oldLength: nat, json: seq<u8>)
    requires 20 + oldLength <= |data|
  {
    var padded := PaddedLength(json);
    && |out| == 20 + padded + (|data| - 20 - oldLength)
    && out[..8] == data[..8]
    && ReadLe32(out, 8) == |out| % U32_MODULUS
    && ReadLe32(out, 12) == padded % U32_MODULUS
    && padded % 4 == 0 && |json| <= padded < |json| + 4
    && out[16..20] == data[16..20]
    && out[20..20 + |json|] == json
    && (forall i :: 20 + |json| <= i < 20 + padded ==> out[i] == 0x20)
    && out[20 + padded..] == data[20 + oldLength..]
  }

  /** The chunk-type bytes of a GLB whose first chunk is JSON are those of `GLB_JSON`. */
  lemma {:induction false} JsonTypeBytes(data: seq<u8>)
    requires 20 <= |data| && ReadLe32(data, 16) == GLB_JSON
    ensures data[16..20] == Le32(GLB_JSON)
  {
    var d := data[16..20];
    assert d[0] == data[16] && d[1] == data[17] && d[2] == data[18] && d[3] == data[19];
    assert ReadLe32(data, 16) == d[0] as int + 0x100 * d[1] as int + 0x1_0000 * d[2] as int + 0x100_0000 * d[3] as int;
  }

  /** What `Reframe` builds is a well-formed re-framing of the data around the new JSON chunk. */
  lemma {:induction false} ReframeLayout(data: seq<u8>, oldLength: nat, json: seq<u8>)
    requires 20 + oldLength <= |data| && ReadLe32(data, 16) == GLB_JSON
    ensures Reframed(Reframe(data, oldLength, json), data, oldLength, json)
  {
    var out := Reframe(data, oldLength, json);
    var padded := PaddedLength(json);
    var spaces, rest := Spaces(padded - |json|), data[20 + oldLength..];
    var body := Le32(padded % U32_MODULUS) + Le32(GLB_JSON) + json + spaces + rest;
    var total := (12 + |body|) % U32_MODULUS;
    assert out == data[..8] + Le32(total) + body;
    assert |out| == 20 + padded + (|data| - 20 - oldLength);
    assert out[8..12] == Le32(total);
    assert out[12..16] == Le32(padded % U32_MODULUS);
    Le32RoundTrip(total, out, 8);
    Le32RoundTrip(padded % U32_MODULUS, out, 12);
    JsonTypeBytes(data);
    assert out[16..20] == Le32(GLB_JSON);
    assert out[20..20 + |json|] == json;
    assert out[20 + padded..] == rest;
    forall i | 20 + |json| <= i < 20 + padded
      ensures out[i] == 0x20
    {
      assert out[i] == spaces[i - 20 - |json|];
    }
  }

  /** The padding loop: `n` spaces pushed. */
  method PushSpaces(head: seq<u8>, n: nat) returns (out: seq<u8>)
    ensures out == head + Spaces(n)
  {
    out := head;
    for p := 0 to n
      invariant out == head + Spaces(p)
    {
      assert Spaces(p + 1) == Spaces(p) + [0x20];
      out := out + [0x20];
    }
  }

  /** The new GLB: header, chunk header, patched JSON, space padding, the rest; then the total length back-patched. */
  method WriteGlb(data: seq<u8>, oldLength: nat, json: seq<u8>) returns (out: seq<u8>)
    requires 20 + oldLength <= |data|
    ensures out == Reframe(data, oldLength, json)
  {
    var padding := (4 - |json| % 4) % 4;
    var newLength := |json| + padding;
    assert newLength == PaddedLength(json);
    out := data[0..8];
    out := out + [0, 0, 0, 0];
    ghost var head := out;
    ghost var body := Le32(newLength % U32_MODULUS);
    out := out + Le32(newLength % U32_MODULUS);
    ConcatAssoc(head, body, Le32(GLB_JSON));
    out, body := out + Le32(GLB_JSON), body + Le32(GLB_JSON);
    ConcatAssoc(head, body, json);
    out, body := out + json, body + json;
    ConcatAssoc(head, body, Spaces(padding));
    out := PushSpaces(out, padding);
    body := body + Spaces(padding);
    var restOffset := 20 + oldLength;
    if restOffset < |data| {
      ConcatAssoc(head, body, data[restOffset..]);
      out := out + data[restOffset..];
    } else {
      assert data[restOffset..] == [];
      assert out == head + body + data[restOffset..];
    }
    body := body + data[restOffset..];
    assert head == data[..8] + [0, 0, 0, 0];
    out := BackPatchLength(out, data[..8], body);
  }

  /** `new_glb[8..12].copy_from_slice(&total_len.to_le_bytes())`: the total length written over the zeros at byte 8. */
  method BackPatchLength(glb: seq<u8>, ghost head: seq<u8>, ghost body: seq<u8>) returns (out: seq<u8>)
    requires |head| == 8 && glb == head + [0, 0, 0, 0] + body
    ensures out == head + Le32(|glb| % U32_MODULUS) + body
  {
    out := glb[..8] + Le32(|glb| % U32_MODULUS) + glb[12..];
    assert glb[..8] == head && glb[12..] == body;
  }

  datatype GlbError = JsonError | SliceOutOfBounds

  /**
   * `sanitize_glb` as written: the data unchanged unless it is a version-2
   * GLB whose JSON chunk the patch changes; then the re-framed GLB. A
   * slice past the end of the data, which panics, is `SliceOutOfBounds`.
   */
  method SanitizeGlb(data: seq<u8>, patch: seq<u8> -> Patch) returns (r: Result<seq<u8>, GlbError>)
    ensures FrameGlb(data) == PassThrough ==> r == Ok(data)
    ensures FrameGlb(data) == OutOfBounds ==> r == Err(SliceOutOfBounds)
    ensures FrameGlb(data).JsonChunk? ==>
              var length := FrameGlb(data).length;
              match patch(data[20..20 + length])
              case Unparsable => r == Err(JsonError)
              case Unchanged => r == Ok(data)
              case Patched(json) => r == Ok(Reframe(data, length, json)) && Reframed(r.value, data, length, json)
  {
    match FrameGlb(data)
    case PassThrough => return Ok(data);
    case OutOfBounds => return Err(SliceOutOfBounds);
    case JsonChunk(length) =>
      match patch(data[20..20 + length])
      case Unparsable => return Err(JsonError);
      case Unchanged => return Ok(data);
      case Patched(json) =>
        var out := WriteGlb(data, length, json);
        ReframeLayout(data, length, json);
        return Ok(out);
  }

  // ---------------------------------------------------------------------
  // Texture cache

  datatype CacheKey = CacheKey(index: nat, srgb: bool)
  datatype TextureFormat = Rgba8Unorm | Rgba8UnormSrgb

  /** A decoded glTF image with its sampler (an opaque descriptor) and mipmap choice. */
  datatype RawTexture = RawTexture(name: Option<string>, width: nat, height: nat, imageData: seq<u8>, sampler: nat, generateMipmaps: bool)

  datatype Texture = Texture(name: Option<string>, width: nat, height: nat, data: seq<u8>, format: TextureFormat, sampler: nat, generateMipmaps: bool)

  /** The engine texture made from a glTF image: sRGB or linear as asked, everything else copied. */
  function TextureOf(raw: RawTexture, srgb: bool): (t: Texture)
    ensures t.format == (if srgb then Rgba8UnormSrgb else Rgba8Unorm)
    ensures t.data == raw.imageData && t.width == raw.width && t.height == raw.height && t.name == raw.name
  {
    Texture(raw.name, raw.width, raw.height, raw.imageData, if srgb then Rgba8UnormSrgb else Rgba8Unorm, raw.sampler, raw.generateMipmaps)
  }

  datatype TextureError = IndexOutOfBounds(index: nat)

  class TextureCache {
    const intermediate: seq<RawTexture>
    const store: Assets.AssetStorage<Texture>
    var created: map<CacheKey, Assets.Handle>

    /** Every cached handle names, in the store, the texture made for its key. */
    ghost predicate Valid()
      reads this, store
    {
      && store.Valid()
      && forall k :: k in created ==>
           created[k] in store.assets && k.index < |intermediate| &&
           store.assets[created[k]] == TextureOf(intermediate[k.index], k.srgb)
    }

    constructor (intermediate: seq<RawTexture>, store: Assets.AssetStorage<Texture>)
      requires store.Valid()
      ensures Valid() && this.intermediate == intermediate && this.store == store && created == map[]
    {
      this.intermediate := intermediate;
      this.store := store;
      created := map[];
    }

    /**
     * `get_or_create_texture`: the cached handle for a known key; an error
     * for an index past the images; otherwise a new texture stored and
     * cached. Whatever handle comes back names the texture for the key.
     */
    method GetOrCreateTexture(index: nat, srgb: bool) returns (r: Result<Assets.Handle, TextureError>)
      requires Valid()
      modifies this, store
      ensures Valid()
      ensures r.Ok? ==> index < |intermediate|
      ensures r.Ok? ==> store.Get(r.value) == Some(TextureOf(intermediate[index], srgb))
      ensures CacheKey(index, srgb) in old(created) ==>
                r == Ok(old(created)[CacheKey(index, srgb)]) && created == old(created) && store.assets == old(store.assets)
      ensures CacheKey(index, srgb) !in old(created) && index >= |intermediate| ==>
                r == Err(IndexOutOfBounds(index)) && created == old(created) && store.assets == old(store.assets)
      ensures CacheKey(index, srgb) !in old(created) && index < |intermediate| ==>
                && r.Ok? && r.value !in old(store.assets)
                && store.assets == old(store.assets)[r.value := TextureOf(intermediate[index], srgb)]
                && created == old(created)[CacheKey(index, srgb) := r.value]
      ensures store.lookup == old(store.lookup)
    {
      var key := CacheKey(index, srgb);
      if key in created {
        return Ok(created[key]);
      }
      if index >= |intermediate| {
        return Err(IndexOutOfBounds(index));
      }
      var texture := TextureOf(intermediate[index], srgb);
      var h := store.Add(texture);
      created := created[key := h];
      return Ok(h);
    }
  }

  /** Asking twice for one image in one colour space gives one texture. */
  method GetTwiceSameHandle(cache: TextureCache, index: nat, srgb: bool) returns (r1: Result<Assets.Handle, TextureError>, r2: Result<Assets.Handle, TextureError>)
    requires cache.Valid()
    modifies cache, cache.store
    ensures r1 == r2
    ensures index < |cache.intermediate| <==> r1.Ok?
  {
    r1 := cache.GetOrCreateTexture(index, srgb);
    r2 := cache.GetOrCreateTexture(index, srgb);
  }

  // ---------------------------------------------------------------------
  // Skin root bone

  /** The position of the first `x` in `s`. */
  function Position(s: seq<nat>, x: nat): (r: Option<nat>)
    ensures r.Some? ==> r.value < |s| && s[r.value] == x && x !in s[..r.value]
    ensures r.None? ==> x !in s
    decreases |s|
  {
    if s == [] then None
    else if s[0] == x then assert s[..0] == []; Some(0)
    else
      match Position(s[1..], x)
      case None => None
      case Some(i) =>
        assert s[..i + 1] == [s[0]] + s[1..][..i];
        Some(i + 1)
  }

  /** The children, in node order, of node `j`; a node the map does not know has none. */
  function ChildrenOf(children: map<nat, seq<nat>>, j: nat): seq<nat>
  {
    if j in children then children[j] else []
  }

  /** `x` is a child of one of the nodes in `parents`. */
  ghost predicate ChildOfAny(parents: seq<nat>, children: map<nat, seq<nat>>, x: nat)
  {
    exists j :: j in parents && x in ChildrenOf(children, j)
  }

  /** The joints that are a child of some joint. */
  ghost predicate IsChildJoint(joints: seq<nat>, children: map<nat, seq<nat>>, x: nat)
  {
    x in joints && ChildOfAny(joints, children, x)
  }

  lemma {:induction false} ChildOfAnyStep(parents: seq<nat>, j: nat, children: map<nat, seq<nat>>, x: nat)
    ensures ChildOfAny(parents + [j], children, x) <==> ChildOfAny(parents, children, x) || x in ChildrenOf(children, j)
  {
    if ChildOfAny(parents + [j], children, x) {
      var p :| p in parents + [j] && x in ChildrenOf(children, p);
      if p != j {
        assert p in parents;
      }
    }
  }

  /**
   * The root bone: the skin's skeleton root if it is one of the joints
   * (its first position), else the first joint that is no joint's child,
   * else 0.
   */
  ghost predicate IsRootBone(joints: seq<nat>, children: map<nat, seq<nat>>, skeleton: Option<nat>, r: nat)
  {
    if skeleton.Some? && skeleton.value in joints then Position(joints, skeleton.value) == Some(r)
    else if exists i :: 0 <= i < |joints| && !IsChildJoint(joints, children, joints[i]) then
      r < |joints| && !IsChildJoint(joints, children, joints[r]) &&
      forall i :: 0 <= i < r ==> IsChildJoint(joints, children, joints[i])
    else r == 0
  }

  /** The inner loop: the children of one joint that are joints, added to the set. */
  method AddChildJoints(acc: set<nat>, cs: seq<nat>, jointSet: set<nat>) returns (r: set<nat>)
    ensures forall x :: x in r <==> x in acc || (x in jointSet && x in cs)
  {
    r := acc;
    for b := 0 to |cs|
      invariant forall x :: x in r <==> x in acc || (x in jointSet && x in cs[..b])
    {
      if cs[b] in jointSet {
        r := r + {cs[b]};
      }
      assert cs[..b + 1] == cs[..b] + [cs[b]];
    }
    assert cs[..|cs|] == cs;
  }

  /** The outer loop of `load_skins`: the set of joints that are some joint's child. */
  method CollectChildJoints(joints: seq<nat>, children: map<nat, seq<nat>>) returns (childJoints: set<nat>)
    ensures forall x :: x in childJoints <==> IsChildJoint(joints, children, x)
  {
    var jointSet: set<nat> := set j | j in joints;
    childJoints := {};
    for a := 0 to |joints|
      invariant forall x :: x in childJoints <==> x in joints && ChildOfAny(joints[..a], children, x)
    {
      childJoints := AddChildJoints(childJoints, ChildrenOf(children, joints[a]), jointSet);
      assert joints[..a + 1] == joints[..a] + [joints[a]];
      forall x {
        ChildOfAnyStep(joints[..a], joints[a], children, x);
      }
    }
    assert joints[..|joints|] == joints;
  }

  /** The loops of `load_skins` that collect the child joints and then pick the root bone. */
  method RootBoneIndex(joints: seq<nat>, children: map<nat, seq<nat>>, skeleton: Option<nat>) returns (r: nat)
    ensures IsRootBone(joints, children, skeleton, r)
    ensures joints != [] ==> r < |joints|
  {
    var childJoints := CollectChildJoints(joints, children);
    if skeleton.Some? {
      var position := Position(joints, skeleton.value);
      if position.Some? {
        return position.value;
      }
    }
    for i := 0 to |joints|
      invariant forall k :: 0 <= k < i ==> IsChildJoint(joints, children, joints[k])
    {
      if joints[i] !in childJoints {
        return i;
      }
    }
    return 0;
  }
}
