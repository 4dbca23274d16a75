/**
 * The rules the shader template environment is configured with: how a
 * template name becomes a file name, where included templates are looked
 * up, and the `LocationAllocator` object templates call to number vertex
 * locations. Template expansion itself belongs to the template engine and
 * is not part of this model.
 */
module ShaderManager {
  import opened Wrappers

  // ---- ASCII helpers ----

  function AsciiLower(c: char): char
  {
    if 'A' <= c <= 'Z' then (c as int + 32) as char else c
  }

  /** `str::eq_ignore_ascii_case`. */
  predicate EqIgnoreAsciiCase(a: string, b: string)
  {
    |a| == |b| && forall i :: 0 <= i < |a| ==> AsciiLower(a[i]) == AsciiLower(b[i])
  }

  /** The index of the last `c` in `s`, if any. */
  function LastIndexOf(s: string, c: char): (r: Option<nat>)
    ensures r.Some? ==> r.value < |s| && s[r.value] == c && forall k :: r.value < k < |s| ==> s[k] != c
    ensures r.None? ==> forall k :: 0 <= k < |s| ==> s[k] != c
  {
    if s == [] then None
    else if s[|s| - 1] == c then Some(|s| - 1)
    else LastIndexOf(s[..|s| - 1], c)
  }

  // ---- std::path::Path::extension ----

  /** The path ends in a `.` component: a `/` followed by a final `.`. */
  predicate EndsInCurDir(s: string)
  {
    |s| >= 2 && s[|s| - 2] == '/' && s[|s| - 1] == '.'
  }

  /**
   * What `Path::components` skips at the end of a path: separators and
   * `.` components, which it normalises away everywhere but at the start.
   */
  function StripTrailingSeparators(s: string): (r: string)
    ensures |r| <= |s| && r == s[..|r|]
    ensures r == [] || r[|r| - 1] != '/'
    ensures !EndsInCurDir(r)
  {
    if s != [] && s[|s| - 1] == '/' then StripTrailingSeparators(s[..|s| - 1])
    else if EndsInCurDir(s) then StripTrailingSeparators(s[..|s| - 1])
    else s
  }

  /**
   * `Path::file_name`: the last component once trailing separators and `.`
   * components are skipped; none when that component is empty (an empty
   * path or the root), `.` (the whole path is the current directory) or
   * `..`.
   */
  function FileName(path: string): (r: Option<string>)
    ensures r.Some? ==> '/' !in r.value && r.value != [] && r.value != "." && r.value != ".."
  {
    var p := StripTrailingSeparators(path);
    var last := match LastIndexOf(p, '/') case Some(i) => p[i + 1..] case None => p;
    if last == [] || last == "." || last == ".." then None else Some(last)
  }

  /** `Path::extension`: what follows the file name's last dot, unless that dot starts the name. */
  function Extension(path: string): (r: Option<string>)
  {
    match FileName(path)
    case None => None
    case Some(name) =>
      match LastIndexOf(name, '.')
      case None => None
      case Some(i) => if i == 0 then None else Some(name[i + 1..])
  }

  predicate HasWgslExtension(name: string)
  {
    var e := Extension(name);
    e.Some? && EqIgnoreAsciiCase(e.value, "wgsl")
  }

  /** The file `shader_loader` looks for: the name if it already ends in a `wgsl` extension, else name + ".wgsl". */
  function TemplateFileName(name: string): (f: string)
    ensures HasWgslExtension(name) ==> f == name
    ensures !HasWgslExtension(name) ==> f == name + ".wgsl"
  {
    if HasWgslExtension(name) then name else name + ".wgsl"
  }

  lemma LastIndexOfAppend(s: string, t: string, c: char)
    requires c in t
    ensures LastIndexOf(s + t, c).Some? && LastIndexOf(t, c).Some?
    ensures LastIndexOf(s + t, c).value == |s| + LastIndexOf(t, c).value
  {
    var r := LastIndexOf(s + t, c);
    var q := LastIndexOf(t, c);
    assert (s + t)[|s| + q.value] == c;
  }

  lemma {:induction false} LastIndexOfAppendAbsent(s: string, t: string, c: char)
    requires c !in t
    ensures LastIndexOf(s + t, c) == LastIndexOf(s, c)
    decreases |t|
  {
    if t != [] {
      var u := s + t;
      assert u[..|u| - 1] == s + t[..|t| - 1];
      assert u[|u| - 1] == t[|t| - 1];
      LastIndexOfAppendAbsent(s, t[..|t| - 1], c);
    } else {
      assert s + t == s;
    }
  }

  /** The last occurrence is the one with no occurrence after it. */
  lemma LastIndexOfIs(s: string, c: char, i: nat)
    requires i < |s| && s[i] == c && forall k :: i < k < |s| ==> s[k] != c
    ensures LastIndexOf(s, c) == Some(i)
  {
  }

  /** A path ending in an ordinary character is its own stripped form. */
  lemma StripNothing(s: string)
    requires s != [] && s[|s| - 1] != '/' && s[|s| - 1] != '.'
    ensures StripTrailingSeparators(s) == s
  {
  }

  lemma AppendWgslFileName(name: string)
    requires FileName(name).Some? && StripTrailingSeparators(name) == name
    ensures FileName(name + ".wgsl") == Some(FileName(name).value + ".wgsl")
  {
    var n := name + ".wgsl";
    assert n[|n| - 1] == 'l';
    StripNothing(n);
    LastIndexOfAppendAbsent(name, ".wgsl", '/');
    match LastIndexOf(name, '/')
    case Some(i) =>
      assert n[i + 1..] == name[i + 1..] + ".wgsl";
    case None =>
  }

  /** A name that ends in a `.` component gets ".wgsl" appended, and the file name becomes "..wgsl". */
  lemma AppendWgslAfterCurDir(name: string)
    requires EndsInCurDir(name)
    ensures Extension(name + ".wgsl") == Some("wgsl")
  {
    var n := name + ".wgsl";
    assert n[|n| - 1] == 'l';
    StripNothing(n);
    LastIndexOfAppendAbsent(name, ".wgsl", '/');
    LastIndexOfIs(name, '/', |name| - 2);
    assert n[|name| - 1..] == "..wgsl";
    LastIndexOfIs("..wgsl", '.', 1);
    assert FileName(n) == Some("..wgsl");
  }

  /**
   * Normalising is idempotent: the file name it produces already carries
   * the `wgsl` extension, for any name with a file name that does not end
   * in a separator.
   */
  lemma TemplateFileNameIdempotent(name: string)
    requires FileName(name).Some? && name[|name| - 1] != '/'
    ensures HasWgslExtension(TemplateFileName(name))
    ensures TemplateFileName(TemplateFileName(name)) == TemplateFileName(name)
  {
    if !HasWgslExtension(name) {
      if EndsInCurDir(name) {
        AppendWgslAfterCurDir(name);
      } else {
        var base := FileName(name).value;
        AppendWgslFileName(name);
        var f := base + ".wgsl";
        LastIndexOfAppend(base, ".wgsl", '.');
        assert LastIndexOf(".wgsl", '.') == Some(0);
        assert f[|base| + 1..] == "wgsl";
        assert Extension(name + ".wgsl") == Some("wgsl");
      }
    }
  }

  /** Rust skips a trailing `.` component: "foo.wgsl/." has the `wgsl` extension and is looked up as given. */
  lemma TrailingCurDirKeepsName()
    ensures FileName("foo.wgsl/.") == Some("foo.wgsl")
    ensures TemplateFileName("foo.wgsl/.") == "foo.wgsl/."
    ensures FileName(".") == None && TemplateFileName(".") == "..wgsl"
  {
    assert StripTrailingSeparators("foo.wgsl/.") == "foo.wgsl";
    assert LastIndexOf("foo.wgsl", '/') == None;
    LastIndexOfIs("foo.wgsl", '.', 3);
    assert "foo.wgsl"[4..] == "wgsl";
    assert StripTrailingSeparators(".") == ".";
  }

  /** The path-join callback: an included template `name` is looked up as "chunks/" + name. */
  function JoinTemplatePath(name: string, parent: string): (r: string)
    ensures |r| == |name| + 7 && r[..7] == "chunks/" && r[7..] == name
  {
    "chunks/" + name
  }

  /**
   * `shader_loader` over the embedded assets: `assets` maps file names to
   * their contents, or to `None` when the bytes are not UTF-8. A missing
   * template is `Ok(None)`, not an error.
   */
  function ShaderLoader(assets: map<string, Option<string>>, name: string): (r: Result<Option<string>, string>)
    ensures r.Ok?
    ensures r.value.Some? <==> TemplateFileName(name) in assets && assets[TemplateFileName(name)].Some?
    ensures r.value.Some? ==> r.value.value == assets[TemplateFileName(name)].value
  {
    var filename := TemplateFileName(name);
    if filename in assets && assets[filename].Some? then Ok(Some(assets[filename].value)) else Ok(None)
  }

  // ---- LocationAllocator ----

  class LocationAllocator {
    var counter: u32

    constructor ()
      ensures counter == 0
    {
      counter := 0;
    }

    /** `next`: `fetch_add(1)`, which wraps at 2^32. */
    method Next() returns (loc: u32)
      modifies this
      ensures loc == old(counter)
      ensures counter == (old(counter) + 1) % U32_MODULUS
    {
      loc := counter;
      counter := (counter + 1) % U32_MODULUS;
    }

    /** The template-facing `call_method`: only "next" exists. */
    method CallMethod(name: string) returns (r: Result<u32, string>)
      modifies this
      ensures name == "next" ==> r == Ok(old(counter)) && counter == (old(counter) + 1) % U32_MODULUS
      ensures name != "next" ==> r == Err("method " + name + " not found") && counter == old(counter)
    {
      if name == "next" {
        var loc := Next();
        r := Ok(loc);
      } else {
        r := Err("method " + name + " not found");
      }
    }

    /** `n` successive `next` calls, as a shader template makes them. */
    method NextMany(n: nat) returns (locs: seq<u32>)
      modifies this
      ensures |locs| == n
      ensures forall i :: 0 <= i < n ==> locs[i] == (old(counter) + i) % U32_MODULUS
      ensures counter == (old(counter) + n) % U32_MODULUS
    {
      locs := [];
      while |locs| < n
        invariant |locs| <= n
        invariant forall i :: 0 <= i < |locs| ==> locs[i] == (old(counter) + i) % U32_MODULUS
        invariant counter == (old(counter) + |locs|) % U32_MODULUS
      {
        var loc := Next();
        locs := locs + [loc];
      }
    }
  }

  /** A fresh allocator hands out 0, 1, …, n-1. */
  method FreshAllocatorCountsFromZero(n: nat) returns (locs: seq<u32>)
    requires n < U32_MODULUS
    ensures locs == seq(n, i => i)
  {
    var a := new LocationAllocator();
    locs := a.NextMany(n);
  }
}
