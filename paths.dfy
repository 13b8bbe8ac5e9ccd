/** Path strings as the Windows build of Python's `os.path` (ntpath) treats them:
    `split`, `splitext`, `join`, and `str.endswith`, which the conversion step uses
    to derive the `.xlsx` sibling of an `.xls` file. Drive letters, UNC prefixes and
    `normpath` are not modelled. */
module Paths {

  /** ntpath accepts both separators. */
  predicate IsSep(c: char) {
    c == '/' || c == '\\'
  }

  /** The separator `os.path.join` inserts on Windows. */
  const JoinSep: char := '\\'

  /** `str.endswith` */
  predicate EndsWith(s: string, suffix: string) {
    |suffix| <= |s| && s[|s| - |suffix|..] == suffix
  }

  predicate NoSeps(s: string) {
    forall k :: 0 <= k < |s| ==> !IsSep(s[k])
  }

  predicate AllSeps(s: string) {
    forall k :: 0 <= k < |s| ==> IsSep(s[k])
  }

  predicate AllDots(s: string) {
    forall k :: 0 <= k < |s| ==> s[k] == '.'
  }

  /** Index just after the last separator of `p`; 0 when `p` has none. */
  function NameStart(p: string): (i: nat)
    ensures i <= |p|
    ensures NoSeps(p[i..])
    ensures i > 0 ==> IsSep(p[i - 1])
  {
    if |p| == 0 || IsSep(p[|p| - 1]) then |p|
    else
      var i := NameStart(p[..|p| - 1]);
      assert p[i..] == p[..|p| - 1][i..] + [p[|p| - 1]];
      i
  }

  /** `s.rstrip(seps)` */
  function TrimTrailingSeps(s: string): (r: string)
    ensures r <= s
    ensures r == [] || !IsSep(r[|r| - 1])
    ensures AllSeps(s[|r|..])
  {
    if |s| > 0 && IsSep(s[|s| - 1]) then
      var r := TrimTrailingSeps(s[..|s| - 1]);
      assert s[|r|..] == s[..|s| - 1][|r|..] + [s[|s| - 1]];
      r
    else s
  }

  /** `str.rfind(c)`: the last index holding `c`, or -1. */
  function RFind(s: string, c: char): (r: int)
    ensures -1 <= r < |s|
    ensures r >= 0 ==> s[r] == c
    ensures forall k :: r < k < |s| ==> s[k] != c
  {
    if |s| == 0 then -1
    else if s[|s| - 1] == c then |s| - 1
    else RFind(s[..|s| - 1], c)
  }

  /** `os.path.split(p)`: the head (directory) and the tail (file name). The head
      loses its trailing separators unless it consists of separators only;
      `SplitIsAtLastSeparator` says where the split falls. */
  function Split(p: string): (r: (string, string))
    ensures NoSeps(r.1) && EndsWith(p, r.1)
    ensures r.0 <= p
    ensures r.0 == [] || AllSeps(r.0) || !IsSep(r.0[|r.0| - 1])
  {
    var i := NameStart(p);
    var trimmed := TrimTrailingSeps(p[..i]);
    if trimmed == [] then
      assert AllSeps(p[..i]) by { assert p[..i][0..] == p[..i]; }
      (p[..i], p[i..])
    else (trimmed, p[i..])
  }

  /** The tail is everything after the last separator; only separators lie between
      the head and the tail; the head is empty exactly when nothing precedes the
      tail, and it is the whole of what precedes the tail when that is all
      separators. These fix the result of `Split`. */
  lemma SplitIsAtLastSeparator(p: string)
    ensures var (head, tail) := Split(p);
            && (|tail| == |p| || IsSep(p[|p| - |tail| - 1]))
            && |head| + |tail| <= |p| && AllSeps(p[|head|..|p| - |tail|])
            && (head == [] <==> |tail| == |p|)
            && (AllSeps(p[..|p| - |tail|]) ==> head == p[..|p| - |tail|])
  {
    var i := NameStart(p);
    var trimmed := TrimTrailingSeps(p[..i]);
    assert p[i..] == Split(p).1;
    if trimmed == [] {
      assert p[i..i] == [];
    } else {
      assert p[|trimmed|..i] == p[..i][|trimmed|..];
      assert !IsSep(p[..i][|trimmed| - 1]);
    }
  }

  function Dir(p: string): string {
    Split(p).0
  }

  function BaseName(p: string): string {
    Split(p).1
  }

  /** `os.path.splitext(p)`: (root, extension). The extension starts at the last dot
      of the file name, provided some character before that dot is not a dot;
      otherwise the extension is empty (`SplitExtAtLastDot`). */
  function SplitExt(p: string): (r: (string, string))
    ensures r.0 + r.1 == p
    ensures r.1 == [] || r.1[0] == '.'
  {
    var start := NameStart(p);
    var dot := RFind(p, '.');
    if dot >= start && !AllDots(p[start..dot]) then (p[..dot], p[dot..]) else (p, "")
  }

  /** The extension lies in the file name and holds no dot after its first
      character, so it runs from the last dot; it is empty exactly when every dot
      of the file name has only dots before it in the name. */
  lemma SplitExtAtLastDot(p: string)
    ensures var ext := SplitExt(p).1;
            && NoSeps(ext) && (forall k :: 0 < k < |ext| ==> ext[k] != '.')
            && (ext == [] <==> forall k :: NameStart(p) <= k < |p| && p[k] == '.' ==> AllDots(p[NameStart(p)..k]))
  {
    var start := NameStart(p);
    var dot := RFind(p, '.');
    if dot >= start && !AllDots(p[start..dot]) {
      assert p[dot..] == p[start..][dot - start..];
    } else {
      DotsBeforeLastDot(p, start, dot);
    }
  }

  /** When the last dot of the name has only dots before it in the name, so does
      every dot of the name. */
  lemma DotsBeforeLastDot(p: string, start: nat, dot: int)
    requires start <= |p| && -1 <= dot < |p|
    requires dot >= 0 ==> p[dot] == '.'
    requires forall k :: dot < k < |p| ==> p[k] != '.'
    requires !(dot >= start && !AllDots(p[start..dot]))
    ensures forall k :: start <= k < |p| && p[k] == '.' ==> AllDots(p[start..k])
  {
    forall k | start <= k < |p| && p[k] == '.'
      ensures AllDots(p[start..k])
    {
      assert k <= dot;
      assert p[start..k] == p[start..dot][..k - start];
    }
  }

  /** `os.path.join(dir, name)` for a file name without a drive or separators: the
      directory, a backslash unless the directory is empty or already ends with a
      separator, then the name (`JoinEndsWithName`). */
  function Join(dir: string, name: string): (r: string)
    ensures dir <= r
    ensures |r| == |dir| + |name| || (|r| == |dir| + |name| + 1 && IsSep(r[|dir|]))
  {
    if dir == [] || IsSep(dir[|dir| - 1]) then dir + name else dir + [JoinSep] + name
  }

  /** The joined path ends with the name. */
  lemma JoinEndsWithName(dir: string, name: string)
    ensures EndsWith(Join(dir, name), name)
  {
  }

  /** The target path of the `.xls` to `.xlsx` conversion: the same directory, the
      same stem and the extension `.xlsx` (app.py:17-20, main.py:68-71). Whatever the
      input, the target ends with `.xlsx`. */
  function XlsxPath(xls: string): (r: string)
    ensures EndsWith(r, ".xlsx")
  {
    var (dir, name) := Split(xls);
    var tail := SplitExt(name).0 + ".xlsx";
    var r := Join(dir, tail);
    JoinEndsWithName(dir, tail);
    EndsWithTransitive(r, tail, ".xlsx");
    r
  }

  /** The target never ends with `.xls`, so it differs from an `.xls` input and
      removing a stale target never removes the source. */
  lemma XlsxPathIsNotXls(xls: string)
    ensures !EndsWith(XlsxPath(xls), ".xls")
    ensures EndsWith(xls, ".xls") ==> XlsxPath(xls) != xls
  {
    XlsxIsNotXls(XlsxPath(xls));
    if EndsWith(xls, ".xls") {
      assert xls[|xls| - 1] == 's';
    }
  }

  /** A suffix of a suffix is a suffix. */
  lemma EndsWithTransitive(s: string, t: string, u: string)
    requires EndsWith(s, t) && EndsWith(t, u)
    ensures EndsWith(s, u)
  {
  }

  /** A path ending with `.xlsx` does not end with `.xls`. */
  lemma XlsxIsNotXls(p: string)
    requires EndsWith(p, ".xlsx")
    ensures !EndsWith(p, ".xls") && p[|p| - 1] == 'x'
  {
    assert p[|p| - 1] == p[|p| - 5..][4];
  }

  /** A path ending with `.xls` does not end with `.xlsx`. */
  lemma XlsIsNotXlsx(p: string)
    requires EndsWith(p, ".xls")
    ensures !EndsWith(p, ".xlsx") && p[|p| - 1] == 's'
  {
    assert p[|p| - 1] == p[|p| - 4..][3];
  }

  /** The file name starts right after a prefix ending with a separator. */
  lemma {:induction false} NameStartAfter(prefix: string, name: string)
    requires prefix == [] || IsSep(prefix[|prefix| - 1])
    requires NoSeps(name)
    ensures NameStart(prefix + name) == |prefix|
    decreases |name|
  {
    if name == [] {
      assert prefix + name == prefix;
    } else {
      var p := prefix + name;
      assert p[..|p| - 1] == prefix + name[..|name| - 1];
      NameStartAfter(prefix, name[..|name| - 1]);
    }
  }

  /** Stripping a run of separators leaves nothing. */
  lemma TrimAllSeps(s: string)
    requires AllSeps(s)
    ensures TrimTrailingSeps(s) == []
  {
  }

  /** `RFind` finds the last occurrence. */
  lemma RFindAt(s: string, c: char, j: nat)
    requires j < |s| && s[j] == c
    requires forall k :: j < k < |s| ==> s[k] != c
    ensures RFind(s, c) == j
  {
  }

  /** The file name of an `.xls` path still ends with `.xls`. */
  lemma BaseNameOfXls(xls: string)
    requires EndsWith(xls, ".xls")
    ensures NoSeps(BaseName(xls)) && EndsWith(BaseName(xls), ".xls")
  {
  }

  /** The stem of an `.xls` file name holds a character other than a dot. */
  lemma StemOfXlsName(name: string)
    requires NoSeps(name) && EndsWith(name, ".xls")
    ensures var stem := SplitExt(name).0; NoSeps(stem) && !AllDots(stem)
  {
  }

  /** Splitting the extension off `stem + ".xlsx"` gives back the stem. */
  lemma SplitExtOfXlsx(stem: string)
    requires NoSeps(stem) && !AllDots(stem)
    ensures NoSeps(stem + ".xlsx")
    ensures SplitExt(stem + ".xlsx") == (stem, ".xlsx")
  {
    var name := stem + ".xlsx";
    var k := |stem|;
    assert NoSeps(name) by {
      forall j | 0 <= j < |name| ensures !IsSep(name[j]) {
        if j < k { assert name[j] == stem[j]; }
      }
    }
    assert NameStart(name) == 0 by {
      NameStartAfter([], name);
      assert [] + name == name;
    }
    assert RFind(name, '.') == k by {
      assert name[k] == '.' && name[k + 1] == 'x' && name[k + 2] == 'l' && name[k + 3] == 's' && name[k + 4] == 'x';
      RFindAt(name, '.', k);
    }
    assert name[0..k] == stem;
    assert name[..k] == stem && name[k..] == ".xlsx";
  }

  /** `os.path.split` undoes `os.path.join` for a head that `split` could have
      produced and a non-empty file name. */
  lemma SplitJoin(dir: string, name: string)
    requires dir == [] || AllSeps(dir) || !IsSep(dir[|dir| - 1])
    requires NoSeps(name) && name != []
    ensures Split(Join(dir, name)) == (dir, name)
  {
    var p := Join(dir, name);
    if dir == [] {
      assert p == [] + name;
      NameStartAfter([], name);
      assert p[..0] == [] && p[0..] == name;
    } else if IsSep(dir[|dir| - 1]) {
      assert p == dir + name;
      NameStartAfter(dir, name);
      assert p[..|dir|] == dir && p[|dir|..] == name;
      TrimAllSeps(dir);
    } else {
      var head := dir + [JoinSep];
      assert p == head + name;
      NameStartAfter(head, name);
      assert p[..|head|] == head && p[|head|..] == name;
      assert head[..|head| - 1] == dir;
      assert TrimTrailingSeps(dir) == dir;
      assert TrimTrailingSeps(head) == dir;
    }
  }

  /** The converted path lives in the same directory as the `.xls` input, keeps its
      stem and carries the extension `.xlsx` (app.py:17-20, main.py:68-71). */
  lemma XlsxPathKeepsDirAndStem(xls: string)
    requires EndsWith(xls, ".xls")
    ensures Dir(XlsxPath(xls)) == Dir(xls)
    ensures SplitExt(BaseName(XlsxPath(xls))) == (SplitExt(BaseName(xls)).0, ".xlsx")
  {
    var (dir, name) := Split(xls);
    var stem := SplitExt(name).0;
    var target := stem + ".xlsx";
    assert XlsxPath(xls) == Join(dir, target);
    assert NoSeps(stem) && !AllDots(stem) by {
      BaseNameOfXls(xls);
      StemOfXlsName(name);
    }
    assert SplitExt(target) == (stem, ".xlsx") && NoSeps(target) by {
      SplitExtOfXlsx(stem);
    }
    assert Split(Join(dir, target)) == (dir, target) by {
      SplitJoin(dir, target);
    }
  }
}
