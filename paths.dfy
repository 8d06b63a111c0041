/**
 * The destination-naming rule of processFiles: the entry name loses its final
 * extension (Go's `filepath.Ext` and `strings.TrimSuffix`), gains ".txt", and
 * is joined under the destination folder.
 */
module Paths {

  type Path = string

  /**
   * `filepath.Ext`: scanning back from the end of the final path element, the
   * suffix that starts at the last '.', or "" when that element has no '.'.
   */
  function Ext(path: string): (e: string)
    ensures |e| <= |path| && e == path[|path| - |e|..]
    ensures e != [] ==> e[0] == '.' && forall i :: 1 <= i < |e| ==> e[i] != '.' && e[i] != '/'
  {
    if path == [] || path[|path| - 1] == '/' then ""
    else if path[|path| - 1] == '.' then "."
    else
      var e := Ext(path[..|path| - 1]);
      if e == "" then "" else e + [path[|path| - 1]]
  }

  /** `strings.HasSuffix`: s is at least as long as the suffix and ends with it. */
  predicate HasSuffix(s: string, suffix: string) {
    |suffix| <= |s| && s[|s| - |suffix|..] == suffix
  }

  /** `strings.TrimSuffix`: s without the suffix when it ends with it, s itself otherwise. */
  function TrimSuffix(s: string, suffix: string): (r: string)
    ensures HasSuffix(s, suffix) ==> r + suffix == s
    ensures !HasSuffix(s, suffix) ==> r == s
  {
    if HasSuffix(s, suffix) then
      assert s[..|s| - |suffix|] + s[|s| - |suffix|..] == s;
      s[..|s| - |suffix|]
    else s
  }

  /**
   * `filepath.Join` of a folder and a file name: the two separated by exactly
   * one '/', or the name alone under an empty folder.
   */
  function Join(dir: Path, name: string): (p: Path)
    ensures dir == "" ==> p == name
    ensures dir != "" ==> (|dir| + |name| <= |p| <= |dir| + |name| + 1 &&
      p[..|dir|] == dir && p[|p| - |name|..] == name &&
      (|p| > |dir| + |name| ==> p[|dir|] == '/'))
  {
    if dir == "" then name
    else if dir[|dir| - 1] == '/' then dir + name
    else dir + "/" + name
  }

  /**
   * The name of the converted file (cmd/main.go:182): the part of the entry
   * name before its final extension, plus ".txt".
   */
  function DestName(name: string): (r: string)
    ensures var stem := name[..|name| - |Ext(name)|];
      stem + Ext(name) == name && r == stem + ".txt"
  {
    var e := Ext(name);
    assert HasSuffix(name, e);
    assert name[..|name| - |e|] + e == name;
    TrimSuffix(name, e) + ".txt"
  }

  /**
   * Where the converted entry is written (cmd/main.go:182): the destination
   * folder, one '/' when the folder does not already end in one, and the
   * destination name.
   */
  function DestPath(dstFolder: Path, name: string): (p: Path)
    ensures var d := DestName(name);
      |d| <= |p| && p[|p| - |d|..] == d && p[|p| - 4..] == ".txt"
    ensures dstFolder == "" ==> p == DestName(name)
    ensures var d := DestName(name);
      dstFolder != "" ==> (|dstFolder| + |d| <= |p| <= |dstFolder| + |d| + 1 &&
        p[..|dstFolder|] == dstFolder && (|p| > |dstFolder| + |d| ==> p[|dstFolder|] == '/'))
  {
    var d := DestName(name);
    assert d[|d| - 4..] == ".txt";
    var p := Join(dstFolder, d);
    assert p[|p| - 4..] == p[|p| - |d|..][|d| - 4..];
    p
  }

  /** For a plain file name (no '/'), the extension is empty exactly when the name has no '.'. */
  lemma {:induction false} ExtEmptyIffNoDot(name: string)
    requires '/' !in name
    ensures Ext(name) == "" <==> '.' !in name
  {
    if name != [] && name[|name| - 1] != '.' {
      var init := name[..|name| - 1];
      ExtEmptyIffNoDot(init);
      assert '.' in name <==> '.' in init by {
        assert name == init + [name[|name| - 1]];
      }
    }
  }

  /** The extension starts at the last '.' of a plain name: Ext(stem + "." + ext) == "." + ext. */
  lemma {:induction false} ExtFromLastDot(stem: string, ext: string)
    requires '.' !in ext && '/' !in ext
    ensures Ext(stem + "." + ext) == "." + ext
  {
    var name := stem + "." + ext;
    if ext == [] {
      assert name[|name| - 1] == '.';
    } else {
      var init, c := ext[..|ext| - 1], ext[|ext| - 1];
      assert ext == init + [c];
      assert name == (stem + "." + init) + [c];
      assert c != '.' && c != '/';
      assert '.' !in init && '/' !in init;
      ExtFromLastDot(stem, init);
      assert Ext(name) == Ext(stem + "." + init) + [c];
    }
  }

  /** A name without a '.' keeps its whole self: "a" becomes "a.txt". */
  lemma NoDotKeepsName(name: string)
    requires '/' !in name && '.' !in name
    ensures DestName(name) == name + ".txt"
  {
    ExtEmptyIffNoDot(name);
    assert name[|name| - 0..] == "";
  }

  /** A name with a '.' loses everything from its last '.' on: "a.b.hex" becomes "a.b.txt". */
  lemma DestNameOfDotted(stem: string, ext: string)
    requires '.' !in ext && '/' !in ext
    ensures DestName(stem + "." + ext) == stem + ".txt"
  {
    var name := stem + "." + ext;
    ExtFromLastDot(stem, ext);
    assert name[|name| - |"." + ext|..] == "." + ext;
    assert name[..|name| - |"." + ext|] == stem;
  }

  /** Worked cases of the naming rule: a.hex, a.b.hex and a become a.txt, a.b.txt and a.txt. */
  lemma DestNameExamples(a: string, b: string, ext: string)
    requires a == "a" && b == "b" && ext == "hex"
    ensures DestName(a + "." + ext) == a + ".txt"
    ensures DestName(a + "." + b + "." + ext) == a + "." + b + ".txt"
    ensures DestName(a) == a + ".txt"
  {
    assert DestName(a + "." + ext) == a + ".txt" by {
      DestNameOfDotted(a, ext);
    }
    assert DestName(a + "." + b + "." + ext) == a + "." + b + ".txt" by {
      DestNameOfDotted(a + "." + b, ext);
    }
    assert DestName(a) == a + ".txt" by {
      NoDotKeepsName(a);
    }
  }

  /** A name that is all extension loses all of it: ".hex" becomes ".txt". */
  lemma DotFileExample(ext: string)
    requires ext == "hex"
    ensures DestName("." + ext) == ".txt"
  {
    DestNameOfDotted("", ext);
    assert "" + "." + ext == "." + ext;
  }

  /** A trailing '.' is an empty extension and is dropped: "a." becomes "a.txt". */
  lemma TrailingDotExample(a: string)
    requires a == "a"
    ensures DestName(a + ".") == a + ".txt"
  {
    DestNameOfDotted(a, "");
    assert a + "." + "" == a + ".";
  }

  /** A worked destination path: "a.hex" in folder "out" is written to "out/a.txt". */
  lemma DestPathExample(dir: Path, name: string)
    requires dir == "out" && name == "a.hex"
    ensures DestPath(dir, name) == "out/a.txt"
  {
    DestNameOfDotted("a", "hex");
    assert name == "a" + "." + "hex";
  }
}
