/**
 * The `.cube` colour-lookup-table reader: a text file with a
 * `LUT_3D_SIZE n` line and then n³ lines of three floats (red, green, blue)
 * becomes an n×n×n 3D texture of RGBA texels with alpha one.
 *
 * Float values are kept as the tokens they were read from: which tokens
 * parse as an `f32` is modelled exactly, their numeric values and the
 * conversion to half floats are not. The input is the decoded text; the
 * UTF-8 check on the raw bytes is not part of this model.
 */
module CubeLut {
  import opened Wrappers
  import opened Text

  const BOM: char := '\U{FEFF}'

  /** `char::is_whitespace`: the Unicode White_Space characters. */
  predicate IsSpace(c: char)
  {
    || c == ' ' || ('\t' <= c <= '\r') || c == '\U{85}' || c == '\U{A0}' || c == '\U{1680}'
    || ('\U{2000}' <= c <= '\U{200A}') || c == '\U{2028}' || c == '\U{2029}' || c == '\U{202F}'
    || c == '\U{205F}' || c == '\U{3000}'
  }

  predicate IsDigit(c: char)
  {
    '0' <= c <= '9'
  }

  /** `strip_prefix('\u{FEFF}').unwrap_or(text)`. */
  function StripBom(text: string): string
  {
    if text != [] && text[0] == BOM then text[1..] else text
  }

  /** The text cut at every line feed; joining the lines with line feeds gives the text back. */
  function Lines(text: string): (ls: seq<string>)
    ensures |ls| >= 1
    decreases |text|
  {
    if text == [] then [[]]
    else
      var rest := Lines(text[1..]);
      if text[0] == '\n' then [[]] + rest else [[text[0]] + rest[0]] + rest[1..]
  }

  lemma {:induction false} LinesRoundTrip(text: string)
    ensures Join(Lines(text), "\n") == text
    ensures forall i :: 0 <= i < |Lines(text)| ==> '\n' !in Lines(text)[i]
    decreases |text|
  {
    if text != [] {
      var rest := Lines(text[1..]);
      LinesRoundTrip(text[1..]);
      if text[0] == '\n' {
        assert Lines(text) == [[]] + rest;
        assert Lines(text)[1..] == rest;
      } else {
        var ls := Lines(text);
        assert ls == [[text[0]] + rest[0]] + rest[1..];
        if |rest| == 1 {
          assert ls == [[text[0]] + rest[0]];
        } else {
          assert ls[1..] == rest[1..];
          assert Join(rest, "\n") == rest[0] + "\n" + Join(rest[1..], "\n");
          assert [text[0]] + rest[0] + "\n" + Join(rest[1..], "\n") == [text[0]] + (rest[0] + "\n" + Join(rest[1..], "\n"));
        }
        forall i | 0 <= i < |ls| ensures '\n' !in ls[i] {
          if i > 0 {
            assert ls[i] == rest[i];
          } else {
            assert ls[0] == [text[0]] + rest[0];
          }
        }
      }
    }
  }

  /** `trim_start`: a suffix of `s` with only whitespace cut off, not starting with whitespace. */
  function TrimStart(s: string): (r: string)
    ensures |r| <= |s| && r == s[|s| - |r|..]
    ensures forall i :: 0 <= i < |s| - |r| ==> IsSpace(s[i])
    ensures r == [] || !IsSpace(r[0])
    decreases |s|
  {
    if s != [] && IsSpace(s[0]) then TrimStart(s[1..]) else s
  }

  /** `trim_end`: a prefix of `s` with only whitespace cut off, not ending with whitespace. */
  function TrimEnd(s: string): (r: string)
    ensures |r| <= |s| && r == s[..|r|]
    ensures forall i :: |r| <= i < |s| ==> IsSpace(s[i])
    ensures r == [] || !IsSpace(r[|r| - 1])
    decreases |s|
  {
    if s != [] && IsSpace(s[|s| - 1]) then TrimEnd(s[..|s| - 1]) else s
  }

  /** `trim`: `s` with the whitespace at both ends cut off. */
  function Trim(s: string): (r: string)
    ensures r == [] || (!IsSpace(r[0]) && !IsSpace(r[|r| - 1]))
  {
    var t := TrimStart(s);
    var r := TrimEnd(t);
    assert r == [] || r[0] == t[0];
    r
  }

  /** The length of the run of non-whitespace characters `s` starts with. */
  function WordLength(s: string): (n: nat)
    ensures n <= |s|
    ensures forall i :: 0 <= i < n ==> !IsSpace(s[i])
    ensures n < |s| ==> IsSpace(s[n])
    decreases |s|
  {
    if s == [] || IsSpace(s[0]) then 0 else 1 + WordLength(s[1..])
  }

  /** `split_whitespace`: the maximal runs of non-whitespace characters, in order. */
  function Tokens(s: string): (ts: seq<string>)
    ensures forall i :: 0 <= i < |ts| ==> ts[i] != [] && forall j :: 0 <= j < |ts[i]| ==> !IsSpace(ts[i][j])
    decreases |s|
  {
    if s == [] then []
    else if IsSpace(s[0]) then Tokens(s[1..])
    else
      var n := WordLength(s);
      [s[..n]] + Tokens(s[n..])
  }

  /** `str::parse::<u32>`: an optional `+`, then one or more decimal digits whose value fits in 32 bits. */
  function ParseU32(tok: string): (r: Option<u32>)
    ensures r.Some? ==> exists d :: (tok == d || tok == "+" + d) && d != [] &&
                          (forall i :: 0 <= i < |d| ==> IsDigit(d[i])) && DigitsValue(d) == r.value
  {
    var d := if tok != [] && tok[0] == '+' then tok[1..] else tok;
    if d != [] && (forall i :: 0 <= i < |d| ==> IsDigit(d[i])) && DigitsValue(d) < U32_MODULUS then
      assert tok == d || tok == "+" + d;
      Some(DigitsValue(d))
    else None
  }

  /** Every 32-bit value, printed in decimal, reads back as itself. */
  lemma ParseU32RoundTrip(n: nat)
    requires n < U32_MODULUS
    ensures ParseU32(NatToString(n)) == Some(n)
  {
    NatToStringRoundTrip(n);
    var s := NatToString(n);
    assert s[0] != '+';
    assert forall i :: 0 <= i < |s| ==> IsDigit(s[i]);
  }

  /**
   * `s` with every whitespace run made one space and the runs at both ends
   * dropped; `gap` says a space is owed before the next non-whitespace
   * character.
   */
  function Squeeze(s: string, gap: bool): string
    decreases |s|
  {
    if s == [] then []
    else if IsSpace(s[0]) then Squeeze(s[1..], true)
    else (if gap then " " else "") + [s[0]] + Squeeze(s[1..], false)
  }

  /** The line with its whitespace collapsed: leading and trailing runs gone, every inner run one space. */
  function Collapsed(s: string): string
  {
    Squeeze(TrimStart(s), false)
  }

  lemma JoinCons(t: string, ts: seq<string>, sep: string)
    ensures Join([t] + ts, sep) == t + if ts == [] then [] else sep + Join(ts, sep)
  {
    assert ([t] + ts)[1..] == ts;
    if ts != [] {
      assert t + sep + Join(ts, sep) == t + (sep + Join(ts, sep));
    }
  }

  lemma {:induction false} SqueezeTokens(s: string, gap: bool)
    ensures Squeeze(s, gap) ==
      if Tokens(s) == [] then [] else (if gap || IsSpace(s[0]) then " " else "") + Join(Tokens(s), " ")
    decreases |s|
  {
    if s != [] && IsSpace(s[0]) {
      SqueezeTokens(s[1..], true);
    } else if s != [] {
      SqueezeTokens(s[1..], false);
      SqueezeWord(s, gap);
    }
  }

  /** The step of `SqueezeTokens` past the first character of a word. */
  lemma SqueezeWord(s: string, gap: bool)
    requires s != [] && !IsSpace(s[0])
    requires Squeeze(s[1..], false) ==
      if Tokens(s[1..]) == [] then [] else (if IsSpace(s[1]) then " " else "") + Join(Tokens(s[1..]), " ")
    ensures Squeeze(s, gap) == (if gap then " " else "") + Join(Tokens(s), " ")
  {
    var n := WordLength(s);
    var rest := Tokens(s[n..]);
    assert Tokens(s) == [s[..n]] + rest;
    JoinCons(s[..n], rest, " ");
    var tail := if rest == [] then [] else " " + Join(rest, " ");
    assert Join(Tokens(s), " ") == s[..n] + tail;
    if n == 1 {
      assert Squeeze(s[1..], false) == tail by {
        assert s[1..] == s[n..];
        assert rest != [] ==> IsSpace(s[1]);
      }
      SqueezeOneLetter(s, gap, tail);
    } else {
      assert Squeeze(s[1..], false) == s[1..n] + tail by {
        TokensPastFirst(s);
        JoinCons(s[1..n], rest, " ");
        assert !IsSpace(s[1]);
      }
      FirstAndRest(s, n);
      SqueezeLonger(s, gap, n, tail);
    }
  }

  lemma SqueezeOneLetter(s: string, gap: bool, tail: string)
    requires s != [] && !IsSpace(s[0]) && Squeeze(s[1..], false) == tail
    ensures Squeeze(s, gap) == (if gap then " " else "") + (s[..1] + tail)
  {
    var g: string := if gap then " " else "";
    assert Squeeze(s, gap) == g + [s[0]] + Squeeze(s[1..], false);
    assert s[..1] == [s[0]];
    assert g + [s[0]] + tail == g + (s[..1] + tail);
  }

  lemma SqueezeLonger(s: string, gap: bool, n: nat, tail: string)
    requires 1 < n <= |s| && !IsSpace(s[0]) && Squeeze(s[1..], false) == s[1..n] + tail
    requires s[..n] == [s[0]] + s[1..n]
    ensures Squeeze(s, gap) == (if gap then " " else "") + (s[..n] + tail)
  {
    var g: string := if gap then " " else "";
    assert Squeeze(s, gap) == g + [s[0]] + (s[1..n] + tail);
  }

  lemma FirstAndRest(s: string, n: nat)
    requires 1 <= n <= |s|
    ensures s[..n] == [s[0]] + s[1..n]
  {
  }

  /** Past the first character of a word of two or more, the tokens start with the rest of that word. */
  lemma TokensPastFirst(s: string)
    requires s != [] && !IsSpace(s[0]) && WordLength(s) > 1
    ensures Tokens(s[1..]) == [s[1..WordLength(s)]] + Tokens(s[WordLength(s)..])
  {
    var n := WordLength(s);
    var t := s[1..];
    assert WordLength(t) == n - 1;
    assert t[n - 1..] == s[n..];
    assert t[..n - 1] == s[1..n];
  }

  lemma {:induction false} TokensTrimStart(s: string)
    ensures Tokens(TrimStart(s)) == Tokens(s)
    decreases |s|
  {
    if s != [] && IsSpace(s[0]) {
      TokensTrimStart(s[1..]);
    }
  }

  /**
   * The tokens are the maximal non-whitespace runs of the line, in order:
   * joined by single spaces they give the line with its whitespace
   * collapsed.
   */
  lemma TokensAreMaximalRuns(s: string)
    ensures Join(Tokens(s), " ") == Collapsed(s)
  {
    TokensTrimStart(s);
    SqueezeTokens(TrimStart(s), false);
  }

  /** A plus sign or none, then decimal digits whose value fits in 32 bits, leading zeros allowed: parsed as that value. */
  lemma ParseU32Accepts(d: string)
    requires d != [] && (forall i :: 0 <= i < |d| ==> '0' <= d[i] <= '9') && DigitsValue(d) < U32_MODULUS
    ensures ParseU32(d) == Some(DigitsValue(d)) && ParseU32("+" + d) == Some(DigitsValue(d))
  {
    assert forall i :: 0 <= i < |d| ==> IsDigit(d[i]);
    assert d[0] != '+';
    var p := "+" + d;
    assert p[0] == '+' && p[1..] == d;
  }

  /** The number of decimal digits `s` starts with. */
  function DigitRun(s: string): (n: nat)
    ensures n <= |s|
    decreases |s|
  {
    if s != [] && IsDigit(s[0]) then 1 + DigitRun(s[1..]) else 0
  }

  predicate IsSign(c: char)
  {
    c == '+' || c == '-'
  }

  function LowerChar(c: char): char
  {
    if 'A' <= c <= 'Z' then (c as int + 32) as char else c
  }

  /** `t` is the lower-case word `w` in any mix of cases. */
  predicate SameWord(t: string, w: string)
  {
    |t| == |w| && forall i :: 0 <= i < |t| ==> LowerChar(t[i]) == w[i]
  }

  /** `e` or `E`, an optional sign and one or more digits, or nothing. */
  predicate IsExponent(s: string)
  {
    s == [] ||
    ((s[0] == 'e' || s[0] == 'E') &&
     var t := if |s| > 1 && IsSign(s[1]) then s[2..] else s[1..];
     t != [] && DigitRun(t) == |t|)
  }

  /** A decimal number: digits with an optional fraction, at least one digit in all, then an optional exponent. */
  predicate IsDecimal(s: string)
  {
    var i := DigitRun(s);
    if i < |s| && s[i] == '.' then
      var j := DigitRun(s[i + 1..]);
      i + j > 0 && IsExponent(s[i + 1 + j..])
    else i > 0 && IsExponent(s[i..])
  }

  /** `str::parse::<f32>` succeeds: an optional sign, then `inf`, `infinity` or `nan` in any case, or a decimal number. */
  predicate IsFloat(tok: string)
  {
    var t := if tok != [] && IsSign(tok[0]) then tok[1..] else tok;
    SameWord(t, "inf") || SameWord(t, "infinity") || SameWord(t, "nan") || IsDecimal(t)
  }

  lemma FloatAccepts()
    ensures IsFloat("0.5") && IsFloat("-1e-3") && IsFloat(".25")
  {
    assert "-1e-3"[1..] == "1e-3";
    assert DigitRun("1e-3") == 1 by { assert "1e-3"[1..] == "e-3"; }
    assert "1e-3"[1..] == "e-3" && "e-3"[2..] == "3";
    assert DigitRun("3") == 1 by { assert "3"[1..] == []; }
    assert IsExponent("e-3");
    assert DigitRun("0.5") == 1 by { assert "0.5"[1..] == ".5"; }
    assert "0.5"[2..] == "5" && DigitRun("5") == 1 by { assert "5"[1..] == []; }
    assert "5"[1..] == [];
    assert ".25"[1..] == "25" && DigitRun("25") == 2 by { assert "25"[1..] == "5"; assert "5"[1..] == []; }
    assert ".25"[3..] == [];
  }

  lemma FloatRejects()
    ensures !IsFloat(".") && !IsFloat("1e")
  {
  }

  datatype CubeError = InvalidSize | MissingSize | TooShort(expected: nat, found: nat)

  /** The loop state: the last valid size read and the float tokens collected so far. */
  datatype Scan = Scan(size: u32, data: seq<string>)

  /** The metadata lines skipped so that they are not read as data. */
  predicate IsMetadata(line: string)
  {
    StartsWith(line, "TITLE") || StartsWith(line, "DOMAIN_") || StartsWith(line, "LUT_1D_") || StartsWith(line, "LUT_3D_INPUT_RANGE")
  }

  /** What one line of the line loop does. */
  datatype Line = Skip | SetSize(n: u32) | BadSize | Values(vs: seq<string>)

  /** A `LUT_3D_SIZE` line: with exactly two tokens it sets the size or, unparsable, fails; otherwise it is skipped. */
  function SizeLine(parts: seq<string>): Line
  {
    if |parts| == 2 then
      match ParseU32(parts[1])
      case Some(n) => SetSize(n)
      case None => BadSize
    else Skip
  }

  /** A data line: exactly three tokens that all parse as floats, otherwise skipped. */
  function DataLine(parts: seq<string>): (k: Line)
    ensures k.Values? ==> |k.vs| == 3 && forall i :: 0 <= i < 3 ==> IsFloat(k.vs[i])
  {
    if |parts| == 3 && IsFloat(parts[0]) && IsFloat(parts[1]) && IsFloat(parts[2]) then Values(parts) else Skip
  }

  /** The line loop's reading of one line; only three float tokens are collected. */
  function Classify(raw: string): (k: Line)
    ensures k.Values? ==> |k.vs| == 3 && forall i :: 0 <= i < 3 ==> IsFloat(k.vs[i])
  {
    var line := Trim(raw);
    if line == [] || line[0] == '#' then Skip
    else if StartsWith(line, "LUT_3D_SIZE") then SizeLine(Tokens(line))
    else if IsMetadata(line) then Skip
    else DataLine(Tokens(line))
  }

  function ClassifyAll(lines: seq<string>): (ks: seq<Line>)
    ensures |ks| == |lines| && forall i :: 0 <= i < |lines| ==> ks[i] == Classify(lines[i])
  {
    seq(|lines|, i requires 0 <= i < |lines| => Classify(lines[i]))
  }

  /** One step of the line loop. */
  function Apply(st: Scan, k: Line): Result<Scan, CubeError>
  {
    match k
    case Skip => Ok(st)
    case SetSize(n) => Ok(st.(size := n))
    case BadSize => Err(InvalidSize)
    case Values(vs) => Ok(st.(data := st.data + vs))
  }

  /** The line loop from a state: the first error stops it. */
  function Run(st: Scan, ks: seq<Line>): Result<Scan, CubeError>
    decreases |ks|
  {
    if ks == [] then Ok(st)
    else
      match Run(st, ks[..|ks| - 1])
      case Err(e) => Err(e)
      case Ok(s) => Apply(s, ks[|ks| - 1])
  }

  /** Running two runs of lines is running the first, then the second from where it stopped. */
  lemma {:induction false} RunAppend(st: Scan, a: seq<Line>, b: seq<Line>)
    ensures Run(st, a + b) == match Run(st, a) case Err(e) => Err(e) case Ok(s) => Run(s, b)
    decreases |b|
  {
    if b == [] {
      assert a + b == a;
    } else {
      assert (a + b)[..|a + b| - 1] == a + b[..|b| - 1];
      RunAppend(st, a, b[..|b| - 1]);
    }
  }

  /** A line the loop skips whatever the state: blank, a comment, or metadata. */
  predicate Ignored(raw: string)
  {
    var line := Trim(raw);
    line == [] || line[0] == '#' || (!StartsWith(line, "LUT_3D_SIZE") && IsMetadata(line))
  }

  lemma ClassifyAllAppend(a: seq<string>, b: seq<string>)
    ensures ClassifyAll(a + b) == ClassifyAll(a) + ClassifyAll(b)
  {
  }

  /** Blank lines, comments and metadata lines can be added anywhere without changing the outcome. */
  lemma IgnoredLineChangesNothing(st: Scan, a: seq<string>, line: string, b: seq<string>)
    requires Ignored(line)
    ensures Run(st, ClassifyAll(a + [line] + b)) == Run(st, ClassifyAll(a + b))
  {
    assert Classify(line) == Skip;
    ClassifyAllAppend(a + [line], b);
    ClassifyAllAppend(a, [line]);
    ClassifyAllAppend(a, b);
    var ka, kb := ClassifyAll(a), ClassifyAll(b);
    assert ClassifyAll([line]) == [Skip];
    RunAppend(st, ka + [Skip], kb);
    RunAppend(st, ka, [Skip]);
    RunAppend(st, ka, kb);
    assert [Skip][..0] == [];
  }

  /** Only whole triples of float tokens are collected, after what was there. */
  lemma {:induction false} RunCollectsTriples(st: Scan, ks: seq<Line>)
    requires forall i :: 0 <= i < |ks| ==> ks[i].Values? ==> |ks[i].vs| == 3 && forall j :: 0 <= j < 3 ==> IsFloat(ks[i].vs[j])
    ensures Run(st, ks).Ok? ==>
              var d := Run(st, ks).value.data;
              && |st.data| <= |d| && d[..|st.data|] == st.data && (|d| - |st.data|) % 3 == 0
              && forall i :: |st.data| <= i < |d| ==> IsFloat(d[i])
    decreases |ks|
  {
    if ks != [] {
      RunCollectsTriples(st, ks[..|ks| - 1]);
      if Run(st, ks).Ok? {
        var s := Run(st, ks[..|ks| - 1]).value;
        var d := Run(st, ks).value.data;
        if ks[|ks| - 1].Values? {
          assert d == s.data + ks[|ks| - 1].vs;
          assert d[..|s.data|] == s.data;
          assert d[..|st.data|] == s.data[..|st.data|];
        }
      }
    }
  }

  /** The values a read collects are whole triples of float tokens. */
  lemma DataIsFloatTriples(lines: seq<string>)
    ensures Run(Scan(0, []), ClassifyAll(lines)).Ok? ==>
              var d := Run(Scan(0, []), ClassifyAll(lines)).value.data;
              |d| % 3 == 0 && forall i :: 0 <= i < |d| ==> IsFloat(d[i])
  {
    RunCollectsTriples(Scan(0, []), ClassifyAll(lines));
  }

  /** A line starting with `LUT_3D_SIZE` is read as a size directive and never as data. */
  lemma SizeDirectiveIsNotData(raw: string)
    requires StartsWith(Trim(raw), "LUT_3D_SIZE")
    ensures Classify(raw) == SizeLine(Tokens(Trim(raw)))
    ensures !Classify(raw).Values?
  {
    assert Trim(raw)[0] == 'L';
  }

  /** A size directive whose second token is not a 32-bit number stops the reader with an error, whatever follows. */
  lemma BadSizeFails(st: Scan, a: seq<Line>, b: seq<Line>)
    requires Run(st, a).Ok?
    ensures Run(st, a + [BadSize] + b) == Err(InvalidSize)
  {
    RunAppend(st, a + [BadSize], b);
    RunAppend(st, a, [BadSize]);
    assert [BadSize][..0] == [];
  }

  /** A well-formed size directive sets the size, whatever it was, so the last one wins. */
  lemma SizeLineSetsSize(st: Scan, n: nat)
    requires n < U32_MODULUS
    ensures SizeLine(["LUT_3D_SIZE", NatToString(n)]) == SetSize(n)
    ensures Apply(st, SetSize(n)).value.size == n
  {
    ParseU32RoundTrip(n);
  }

  /** One RGBA texel; the alpha channel is the constant one. */
  datatype Channel = Value(token: string) | One
  datatype Rgba = Rgba(r: Channel, g: Channel, b: Channel, a: Channel)

  /** `chunks_exact(3)`, each chunk becoming a texel with alpha one; a trailing partial chunk is dropped. */
  function Texels(values: seq<string>): (ts: seq<Rgba>)
    ensures |ts| == |values| / 3
    ensures forall i :: 0 <= i < |ts| ==>
              ts[i] == Rgba(Value(values[3 * i]), Value(values[3 * i + 1]), Value(values[3 * i + 2]), One)
  {
    seq(|values| / 3, i requires 0 <= i < |values| / 3 =>
          Rgba(Value(values[3 * i]), Value(values[3 * i + 1]), Value(values[3 * i + 2]), One))
  }

  /** The colour tokens of the texels, in order. */
  function Colours(ts: seq<Rgba>): seq<string>
    requires forall i :: 0 <= i < |ts| ==> ts[i].r.Value? && ts[i].g.Value? && ts[i].b.Value?
    decreases |ts|
  {
    if ts == [] then []
    else Colours(ts[..|ts| - 1]) + [ts[|ts| - 1].r.token, ts[|ts| - 1].g.token, ts[|ts| - 1].b.token]
  }

  /** The texels hold the whole triples of values, in order. */
  lemma {:induction false} TexelsRoundTrip(values: seq<string>)
    requires |values| % 3 == 0
    ensures Colours(Texels(values)) == values
    decreases |values|
  {
    if values != [] {
      var init := values[..|values| - 3];
      TexelsRoundTrip(init);
      assert Texels(values)[..|values| / 3 - 1] == Texels(init);
      assert values == init + [values[|values| - 3], values[|values| - 2], values[|values| - 1]];
    }
  }

  /** The decoded image, `Rgba16Float` and three-dimensional. */
  datatype Lut = Lut(name: string, width: nat, height: nat, depth: nat, texels: seq<Rgba>)

  /** `expected_len` as written: `size * size * size * 3` in `u32`, which wraps in a release build. */
  function ExpectedLen(size: u32): (n: u32)
    ensures size * size * size * 3 < U32_MODULUS ==> n == size * size * size * 3
  {
    (size * size * size * 3) % U32_MODULUS
  }

  /** The checks after the line loop, then the last `expected_len` values as texels. */
  function Finish(st: Scan): Result<Lut, CubeError>
  {
    if st.size == 0 then Err(MissingSize)
    else
      var n := ExpectedLen(st.size);
      if |st.data| < n then Err(TooShort(n, |st.data|))
      else Ok(Lut("LUT_3D", st.size, st.size, st.size, Texels(st.data[|st.data| - n..])))
  }

  /** `decode_cube_cpu` on the decoded text. */
  function Decode(text: string): Result<Lut, CubeError>
  {
    match Run(Scan(0, []), ClassifyAll(Lines(StripBom(text))))
    case Err(e) => Err(e)
    case Ok(st) => Finish(st)
  }

  /**
   * The checks after the line loop: no size is an error, too few values
   * is an error, and otherwise an n×n×n image of opaque texels holding the
   * last size³·3 values, in order, whenever that product fits in 32 bits.
   */
  lemma FinishOutcome(st: Scan)
    ensures st.size == 0 ==> Finish(st) == Err(MissingSize)
    ensures st.size != 0 && |st.data| < ExpectedLen(st.size) ==> Finish(st) == Err(TooShort(ExpectedLen(st.size), |st.data|))
    ensures Finish(st).Ok? <==> st.size != 0 && |st.data| >= ExpectedLen(st.size)
    ensures Finish(st).Ok? ==>
              var lut := Finish(st).value;
              && lut.width == st.size && lut.height == st.size && lut.depth == st.size
              && (forall i :: 0 <= i < |lut.texels| ==> lut.texels[i].a == One)
    ensures Finish(st).Ok? && st.size * st.size * st.size * 3 < U32_MODULUS ==>
              var n := st.size * st.size * st.size * 3;
              |Finish(st).value.texels| == st.size * st.size * st.size &&
              Colours(Finish(st).value.texels) == st.data[|st.data| - n..]
  {
    if Finish(st).Ok? && st.size * st.size * st.size * 3 < U32_MODULUS {
      var n := st.size * st.size * st.size * 3;
      assert n % 3 == 0;
      TexelsRoundTrip(st.data[|st.data| - n..]);
    }
  }

  /** The only error the line loop can stop with is an invalid size. */
  lemma {:induction false} RunErrorIsInvalidSize(st: Scan, ks: seq<Line>)
    ensures Run(st, ks).Err? ==> Run(st, ks).error == InvalidSize
    decreases |ks|
  {
    if ks != [] {
      RunErrorIsInvalidSize(st, ks[..|ks| - 1]);
    }
  }

  /** The body of the line loop: one line read into the state, or the size error. */
  method ReadLine(raw: string, size: u32, data: seq<string>) returns (r: Result<Scan, CubeError>)
    ensures r == Apply(Scan(size, data), Classify(raw))
  {
    var line := Trim(raw);
    if line == [] || line[0] == '#' {
      return Ok(Scan(size, data));
    }
    if StartsWith(line, "LUT_3D_SIZE") {
      r := ReadSize(Tokens(line), size, data);
      return;
    }
    if IsMetadata(line) {
      return Ok(Scan(size, data));
    }
    r := ReadValues(Tokens(line), size, data);
  }

  /** A size directive: two tokens set the size or fail; any other count is ignored. */
  method ReadSize(parts: seq<string>, size: u32, data: seq<string>) returns (r: Result<Scan, CubeError>)
    ensures r == Apply(Scan(size, data), SizeLine(parts))
  {
    if |parts| == 2 {
      var parsed := ParseU32(parts[1]);
      if parsed.None? {
        return Err(InvalidSize);
      }
      return Ok(Scan(parsed.value, data));
    }
    return Ok(Scan(size, data));
  }

  /** A data line: three float tokens are pushed in order; anything else is ignored. */
  method ReadValues(parts: seq<string>, size: u32, data: seq<string>) returns (r: Result<Scan, CubeError>)
    ensures r == Apply(Scan(size, data), DataLine(parts))
  {
    if |parts| == 3 && IsFloat(parts[0]) && IsFloat(parts[1]) && IsFloat(parts[2]) {
      assert parts == [parts[0], parts[1], parts[2]];
      return Ok(Scan(size, data + [parts[0], parts[1], parts[2]]));
    }
    return Ok(Scan(size, data));
  }

  /** `decode_cube_cpu`: the line loop, the two checks, and the chunk loop. */
  method DecodeCubeCpu(text: string) returns (r: Result<Lut, CubeError>)
    ensures r == Decode(text)
  {
    var t := StripBom(text);
    var scan := ReadLines(Lines(t));
    if scan.Err? {
      return Err(scan.error);
    }
    r := Checked(scan.value.size, scan.value.data);
  }

  /** The line loop: the size directive and the values read line by line, stopping at the first error. */
  method ReadLines(lines: seq<string>) returns (r: Result<Scan, CubeError>)
    ensures r == Run(Scan(0, []), ClassifyAll(lines))
  {
    ghost var ks := ClassifyAll(lines);
    var size: u32 := 0;
    var data: seq<string> := [];
    for i := 0 to |lines|
      invariant Run(Scan(0, []), ks[..i]) == Ok(Scan(size, data))
    {
      RunStep(Scan(0, []), lines, ks, i);
      var step := ReadLine(lines[i], size, data);
      if step.Err? {
        RunStopsAtError(Scan(0, []), ks, i + 1);
        assert ks[..|ks|] == ks;
        return Err(step.error);
      }
      size, data := step.value.size, step.value.data;
    }
    assert ks[..|lines|] == ks;
    r := Ok(Scan(size, data));
  }

  /** The line loop's step: the first `i + 1` lines are the first `i` and then line `i`. */
  lemma {:induction false} RunStep(st: Scan, lines: seq<string>, ks: seq<Line>, i: nat)
    requires ks == ClassifyAll(lines) && i < |lines|
    ensures Run(st, ks[..i + 1]) == match Run(st, ks[..i]) case Err(e) => Err(e) case Ok(s) => Apply(s, Classify(lines[i]))
  {
    assert ks[..i + 1][..i] == ks[..i];
  }

  /** The two checks after the line loop, then the chunk loop. */
  method Checked(size: u32, data: seq<string>) returns (r: Result<Lut, CubeError>)
    ensures r == Finish(Scan(size, data))
  {
    if size == 0 {
      return Err(MissingSize);
    }
    var expected := ExpectedLen(size);
    if |data| < expected {
      return Err(TooShort(expected, |data|));
    }
    var lut := data[|data| - expected..];
    var texels: seq<Rgba> := [];
    for k := 0 to |lut| / 3
      invariant texels == Texels(lut)[..k]
    {
      texels := texels + [Rgba(Value(lut[3 * k]), Value(lut[3 * k + 1]), Value(lut[3 * k + 2]), One)];
    }
    assert texels == Texels(lut);
    r := Ok(Lut("LUT_3D", size, size, size, texels));
  }

  /** Once the line loop has failed, later lines do not bring it back. */
  lemma {:induction false} RunStopsAtError(st: Scan, ks: seq<Line>, i: nat)
    requires i <= |ks| && Run(st, ks[..i]).Err?
    ensures Run(st, ks) == Run(st, ks[..i])
    decreases |ks| - i
  {
    if i < |ks| {
      assert ks[..i + 1][..i] == ks[..i];
      RunStopsAtError(st, ks, i + 1);
    } else {
      assert ks[..i] == ks;
    }
  }

  /**
   * With the size product wrapping in 32 bits, `LUT_3D_SIZE 2048` needs no
   * values at all: 2048³·3 is a multiple of 2³², and an image claiming
   * 2048³ texels comes back with none.
   */
  lemma WrappedSizeAcceptsNoData()
    ensures ExpectedLen(2048) == 0
    ensures Finish(Scan(2048, [])) == Ok(Lut("LUT_3D", 2048, 2048, 2048, []))
  {
  }

  /** The intended check: `size * size * size * 3` without wrapping. */
  function FinishUnwrapped(st: Scan): (r: Result<Lut, CubeError>)
    ensures r.Ok? ==> |r.value.texels| == st.size * st.size * st.size && r.value.width == st.size
    ensures |st.data| < st.size * st.size * st.size * 3 ==> r.Err?
  {
    if st.size == 0 then Err(MissingSize)
    else
      var n := st.size * st.size * st.size * 3;
      if |st.data| < n then Err(TooShort(n, |st.data|))
      else Ok(Lut("LUT_3D", st.size, st.size, st.size, Texels(st.data[|st.data| - n..])))
  }

  /** Wherever the product fits in 32 bits the two checks agree; for size 2048 the intended one refuses empty data. */
  lemma FinishUnwrappedAgrees(st: Scan)
    ensures st.size * st.size * st.size * 3 < U32_MODULUS ==> FinishUnwrapped(st) == Finish(st)
    ensures FinishUnwrapped(Scan(2048, [])).Err?
  {
  }
}
