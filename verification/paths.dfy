/**
 The output file name of an image: `os.path.splitext(os.path.basename(p))[0]`
 followed by ".json", with POSIX path rules ('/' is the only separator).
 */
module Paths {

  /** `os.path.basename(p)`: what follows the last '/' of `p`. */
  function BaseName(p: string): (r: string)
    ensures |r| <= |p|
    decreases |p|
  {
    if |p| == 0 || p[|p| - 1] == '/' then ""
    else BaseName(p[..|p| - 1]) + [p[|p| - 1]]
  }

  /** `BaseName(p)` is the longest suffix of `p` without a '/'. */
  lemma {:induction false} BaseNameIsLastComponent(p: string)
    ensures '/' !in BaseName(p)
    ensures BaseName(p) == p[|p| - |BaseName(p)|..]
    ensures |BaseName(p)| < |p| ==> p[|p| - |BaseName(p)| - 1] == '/'
    decreases |p|
  {
    if |p| > 0 && p[|p| - 1] != '/' {
      var init := p[..|p| - 1];
      BaseNameIsLastComponent(init);
      assert p == init + [p[|p| - 1]];
    }
  }

  /** Index of the last '.' in `s`, or -1 when there is none. */
  function LastDot(s: string): (r: int)
    ensures -1 <= r < |s|
    decreases |s|
  {
    if |s| == 0 then -1
    else if s[|s| - 1] == '.' then |s| - 1
    else LastDot(s[..|s| - 1])
  }

  /** `LastDot(s)` is a '.' with none after it. */
  lemma {:induction false} LastDotIsLast(s: string)
    ensures LastDot(s) >= 0 ==> s[LastDot(s)] == '.'
    ensures forall k :: LastDot(s) < k < |s| ==> s[k] != '.'
    decreases |s|
  {
    if |s| > 0 && s[|s| - 1] != '.' {
      LastDotIsLast(s[..|s| - 1]);
    }
  }

  /** True when every character of `s` is a '.'. */
  predicate AllDots(s: string) {
    forall k :: 0 <= k < |s| ==> s[k] == '.'
  }

  /** `os.path.splitext(name)[0]` for a name without '/': the extension runs
      from the last '.', except that leading dots never start one (".bashrc"
      and "..x" have no extension). */
  function StripExtension(name: string): string {
    var d := LastDot(name);
    if d >= 0 && !AllDots(name[..d]) then name[..d] else name
  }

  /** `StripExtension(name)` is a prefix of `name`; when it is shorter, what
      it leaves out is a '.' followed by no other '.', after at least one
      character that is not a '.'; when it is all of `name`, either `name`
      has no '.' or only dots precede its last one. */
  lemma StripExtensionCuts(name: string)
    ensures |StripExtension(name)| <= |name|
    ensures StripExtension(name) == name[..|StripExtension(name)|]
    ensures |StripExtension(name)| < |name| ==>
      && name[|StripExtension(name)|] == '.'
      && '.' !in name[|StripExtension(name)| + 1..]
      && !AllDots(StripExtension(name))
    ensures |StripExtension(name)| == |name| ==> LastDot(name) < 0 || AllDots(name[..LastDot(name)])
  {
    var d := LastDot(name);
    LastDotIsLast(name);
    if d >= 0 && !AllDots(name[..d]) {
      assert forall k :: d + 1 <= k < |name| ==> name[k] != '.';
    }
  }

  /** The name the record of an image is written under. */
  function OutName(fileName: string): string {
    StripExtension(BaseName(fileName)) + ".json"
  }

  /** `BaseName` keeps exactly the last path component. */
  lemma {:induction false} BaseNameOf(dir: string, name: string)
    requires dir == [] || dir[|dir| - 1] == '/'
    requires '/' !in name
    ensures BaseName(dir + name) == name
    decreases |name|
  {
    if |name| > 0 {
      var init := name[..|name| - 1];
      var last := name[|name| - 1];
      assert name == init + [last];
      assert dir + name == (dir + init) + [last];
      assert last in name;
      BaseNameSnoc(dir + init, last);
      BaseNameOf(dir, init);
    }
  }

  lemma BaseNameSnoc(p: string, c: char)
    requires c != '/'
    ensures BaseName(p + [c]) == BaseName(p) + [c]
  {
  }

  /** In `stem + "." + ext` with no '.' in `ext`, the last dot is the one
      after `stem`. */
  lemma {:induction false} LastDotBeforeExtension(stem: string, ext: string)
    requires '.' !in ext
    ensures LastDot(stem + "." + ext) == |stem|
    decreases |ext|
  {
    if |ext| > 0 {
      var init := ext[..|ext| - 1];
      assert (stem + "." + ext)[..|stem + "." + ext| - 1] == stem + "." + init;
      assert ext[|ext| - 1] in ext;
      LastDotBeforeExtension(stem, init);
    }
  }

  lemma {:induction false} LastDotNone(s: string)
    requires '.' !in s
    ensures LastDot(s) == -1
    decreases |s|
  {
    if |s| > 0 {
      assert s[|s| - 1] in s;
      LastDotNone(s[..|s| - 1]);
    }
  }

  /** Stripping removes exactly the extension of `stem + "." + ext`. */
  lemma StripExtensionOf(stem: string, ext: string)
    requires '.' !in ext
    requires !AllDots(stem)
    ensures StripExtension(stem + "." + ext) == stem
  {
    var name := stem + "." + ext;
    LastDotBeforeExtension(stem, ext);
    assert name[..|stem|] == stem;
  }

  /** A name without any '.' is kept whole. */
  lemma StripExtensionNoDot(name: string)
    requires '.' !in name
    ensures StripExtension(name) == name
  {
    LastDotNone(name);
  }

  /** The output name of `dir/stem.ext` is `stem.json`. */
  lemma OutNameOf(dir: string, stem: string, ext: string)
    requires dir == [] || dir[|dir| - 1] == '/'
    requires '/' !in stem && '/' !in ext && '.' !in ext
    requires !AllDots(stem)
    ensures OutName(dir + stem + "." + ext) == stem + ".json"
  {
    assert dir + stem + "." + ext == dir + (stem + "." + ext);
    BaseNameOf(dir, stem + "." + ext);
    StripExtensionOf(stem, ext);
  }

  /** A name whose only '.' is its first character has no extension:
      ".bashrc" stays ".bashrc". */
  lemma StripExtensionLeadingDot(rest: string)
    requires '.' !in rest
    ensures StripExtension("." + rest) == "." + rest
  {
    LastDotBeforeExtension("", rest);
    assert "" + "." + rest == "." + rest;
  }
}
