/** The cache identity of a function: `getFuncName` (cache.go), which takes the
    runtime's fully qualified name of the function (for example
    "github.com/x/pkg.(*T).Method-fm") and keeps the part after the last dot.
    The runtime lookup itself is left to the caller: the full name is the input. */
module FuncName {

  /** `s` ends with `suffix`. */
  predicate IsSuffix(suffix: string, s: string)
  {
    |suffix| <= |s| && s[|s| - |suffix|..] == suffix
  }

  /** The text after the last '/' of `path` (all of it when there is none):
      the part of a path that `filepath.Ext` looks at on a Unix system. */
  function LastSegment(path: string): (seg: string)
    ensures |seg| <= |path|
  {
    if |path| == 0 then ""
    else if path[|path| - 1] == '/' then ""
    else LastSegment(path[..|path| - 1]) + [path[|path| - 1]]
  }

  /** The last segment is the path's suffix after its last '/': it holds no
      '/', and it is the whole path or is preceded by a '/'. */
  predicate IsLastSegment(seg: string, path: string)
  {
    && '/' !in seg
    && IsSuffix(seg, path)
    && (seg == path || path[|path| - |seg| - 1] == '/')
  }

  lemma {:induction false} LastSegmentSpec(path: string)
    ensures IsLastSegment(LastSegment(path), path)
  {
    if |path| > 0 && path[|path| - 1] != '/' {
      var init := path[..|path| - 1];
      var c := path[|path| - 1];
      LastSegmentSpec(init);
      assert path == init + [c];
      LastSegmentAppend(LastSegment(init), init, c);
    }
  }

  /** The scan step over a character other than '/' preserves `IsLastSegment`. */
  lemma LastSegmentAppend(seg: string, init: string, c: char)
    requires c != '/'
    requires IsLastSegment(seg, init)
    ensures IsLastSegment(seg + [c], init + [c])
  {
    assert '/' !in seg + [c];
    SuffixAppend(seg, init, c);
    if seg != init {
      assert (init + [c])[|init + [c]| - |seg + [c]| - 1] == init[|init| - |seg| - 1];
    }
  }

  /** A common last character keeps one string a suffix of another. */
  lemma SuffixAppend(suffix: string, s: string, c: char)
    requires IsSuffix(suffix, s)
    ensures IsSuffix(suffix + [c], s + [c])
  {
    assert (s + [c])[|s| - |suffix|..] == s[|s| - |suffix|..] + [c];
  }

  /** `filepath.Ext`: scanning back from the end and stopping at a '/', the
      suffix that starts at the first '.' met, or "" when there is none. */
  function FileExt(path: string): (ext: string)
    ensures ext == "" || ext[0] == '.'
    ensures |ext| <= |path| && '/' !in ext
    ensures ext != "" ==> '.' !in ext[1..]
  {
    if |path| == 0 then ""
    else
      var c := path[|path| - 1];
      if c == '/' then ""
      else if c == '.' then "."
      else
        var init := path[..|path| - 1];
        var ext := FileExt(init);
        if ext == "" then ""
        else
          assert (ext + [c])[1..] == ext[1..] + [c];
          ext + [c]
  }

  /** What `filepath.Ext` finds: nothing when the last path segment has no
      dot, and otherwise exactly the segment's tail from its last dot on. */
  predicate ExtOfSegment(ext: string, seg: string)
  {
    && (ext == "" <==> '.' !in seg)
    && (ext != "" ==> '.' !in ext[1..] && IsSuffix(ext, seg))
  }

  lemma {:induction false} FileExtSpec(path: string)
    ensures ExtOfSegment(FileExt(path), LastSegment(path))
  {
    if |path| > 0 {
      var c := path[|path| - 1];
      var init := path[..|path| - 1];
      if c == '.' {
        assert LastSegment(path)[|LastSegment(path)| - 1] == '.';
      } else if c != '/' {
        FileExtSpec(init);
        assert FileExt(path) == if FileExt(init) == "" then "" else FileExt(init) + [c];
        assert LastSegment(path) == LastSegment(init) + [c];
        ExtOfSegmentAppend(FileExt(init), LastSegment(init), c);
      }
    }
  }

  /** The scan step over an ordinary character preserves `ExtOfSegment`. */
  lemma ExtOfSegmentAppend(ext: string, seg: string, c: char)
    requires c != '.'
    requires ExtOfSegment(ext, seg)
    ensures ExtOfSegment(if ext == "" then "" else ext + [c], seg + [c])
  {
    assert '.' in seg + [c] <==> '.' in seg;
    if ext != "" {
      assert (ext + [c])[1..] == ext[1..] + [c];
      SuffixAppend(ext, seg, c);
    }
  }

  /** `strings.TrimPrefix(s, ".")` */
  function TrimDot(s: string): (r: string)
    ensures |s| > 0 && s[0] == '.' ==> s == ['.'] + r
    ensures !(|s| > 0 && s[0] == '.') ==> r == s
  {
    if |s| > 0 && s[0] == '.' then s[1..] else s
  }

  /** The suffix a method value's runtime name carries ("T.M-fm"). */
  const MethodValueSuffix: string := "-fm"

  /** A character absent from a string is absent from each of its slices. */
  lemma AbsentFromSlice(s: string, c: char, i: nat, j: nat)
    requires c !in s
    requires i <= j <= |s|
    ensures c !in s[i..j]
  {
    assert forall k | 0 <= k < j - i :: s[i..j][k] == s[i + k];
  }

  /** Removes one trailing "-fm" from a name longer than three characters. */
  function StripMethodSuffix(stem: string): (name: string)
    ensures if |stem| > 3 && IsSuffix(MethodValueSuffix, stem)
      then stem == name + MethodValueSuffix
      else stem == name
  {
    if |stem| > 3 && stem[|stem| - 3..] == MethodValueSuffix then
      var name := stem[..|stem| - 3];
      assert stem == name + MethodValueSuffix;
      name
    else stem
  }

  /** `getFuncName`: the extension of the full name without its dot, with one
      trailing "-fm" removed when the name is longer than three characters.
      Go measures `len` in bytes and this model in characters; the two agree
      here because the only name of at most three characters that ends in
      "-fm" is "-fm" itself. */
  function GetFuncName(fullName: string): (name: string)
    ensures '.' !in name && '/' !in name
    ensures '.' !in LastSegment(fullName) ==> name == ""
  {
    var ext := FileExt(fullName);
    var stem := TrimDot(ext);
    assert '.' !in stem && '/' !in stem && ('.' !in LastSegment(fullName) ==> stem == "") by {
      FileExtSpec(fullName);
      LastSegmentSpec(fullName);
      assert ExtOfSegment(ext, LastSegment(fullName));
      if ext != "" {
        var seg := LastSegment(fullName);
        AbsentFromSlice(seg, '/', |seg| - |ext|, |seg|);
        AbsentFromSlice(ext, '/', 1, |ext|);
      }
    }
    var name := StripMethodSuffix(stem);
    assert '.' !in name && '/' !in name by {
      AbsentFromSlice(stem, '.', 0, |name|);
      AbsentFromSlice(stem, '/', 0, |name|);
      assert name == stem[..|name|];
    }
    name
  }

  /** The extension of a name whose tail after its last '.' holds no '.' and
      no '/' is that dot and tail. */
  lemma {:induction false} FileExtOfDotted(prefix: string, tail: string)
    requires '.' !in tail && '/' !in tail
    ensures FileExt(prefix + "." + tail) == "." + tail
  {
    if tail == [] {
      FileExtOfDot(prefix);
    } else {
      var init := tail[..|tail| - 1];
      var c := tail[|tail| - 1];
      assert '.' !in init && '/' !in init by {
        AbsentFromSlice(tail, '.', 0, |tail| - 1);
        AbsentFromSlice(tail, '/', 0, |tail| - 1);
      }
      FileExtOfDotted(prefix, init);
      FileExtAppend(prefix, init, c);
      assert tail == init + [c];
    }
  }

  /** A path ending in a dot has the extension ".". */
  lemma FileExtOfDot(prefix: string)
    ensures FileExt(prefix + ".") == "."
  {
    var path := prefix + ".";
    assert path[|path| - 1] == '.';
  }

  /** Appending an ordinary character to a dotted path extends its extension
      by that character. */
  lemma FileExtAppend(prefix: string, init: string, c: char)
    requires c != '.' && c != '/'
    requires FileExt(prefix + "." + init) == "." + init
    ensures FileExt(prefix + "." + (init + [c])) == "." + (init + [c])
  {
    var path := prefix + "." + init + [c];
    assert path[..|path| - 1] == prefix + "." + init;
    assert path[|path| - 1] == c;
    assert prefix + "." + (init + [c]) == path;
  }

  /** Round trip for a plain function: the runtime names a function declared
      as `ident` in a package as "<package path>.<ident>", and the cache
      identity recovered from that name is `ident` itself. */
  lemma NameOfFunction(pkgPath: string, ident: string)
    requires '.' !in ident && '/' !in ident
    requires !(|ident| > 3 && IsSuffix(MethodValueSuffix, ident))
    ensures GetFuncName(pkgPath + "." + ident) == ident
  {
    FileExtOfDotted(pkgPath, ident);
    assert ("." + ident)[1..] == ident;
  }

  /** Round trip for a method value: the runtime names a bound method `ident`
      "<receiver path>.<ident>-fm", and the identity recovered is `ident`. */
  lemma NameOfMethodValue(receiverPath: string, ident: string)
    requires '.' !in ident && '/' !in ident && ident != ""
    ensures GetFuncName(receiverPath + "." + ident + MethodValueSuffix) == ident
  {
    var tail := ident + MethodValueSuffix;
    assert '.' !in tail && '/' !in tail;
    assert receiverPath + "." + ident + MethodValueSuffix == receiverPath + "." + tail;
    FileExtOfDotted(receiverPath, tail);
    assert ("." + tail)[1..] == tail;
    assert tail[..|tail| - 3] == ident;
  }
}
