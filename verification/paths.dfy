/** System.IO.Path as the program uses it, with the Windows separators of the .NET Framework. */
module Paths {

  /** Directory separator, alternative directory separator and volume separator. */
  predicate IsSeparator(c: char)
  {
    c == '\\' || c == '/' || c == ':'
  }

  predicate NoSeparator(s: string)
  {
    forall i :: 0 <= i < |s| ==> !IsSeparator(s[i])
  }

  /**
   * Path.GetFileName: the characters after the last separator. The result is the longest
   * suffix of path that holds no separator.
   */
  function GetFileName(path: string): (r: string)
    ensures |r| <= |path| && r == path[|path| - |r|..]
    ensures NoSeparator(r)
    ensures |r| < |path| ==> IsSeparator(path[|path| - |r| - 1])
  {
    if |path| == 0 then ""
    else if IsSeparator(path[|path| - 1]) then ""
    else
      var earlier := GetFileName(path[..|path| - 1]);
      SuffixStep(path, |earlier|);
      earlier + [path[|path| - 1]]
  }

  /** A suffix of all but the last character, extended by the last character, is a suffix. */
  lemma SuffixStep(path: string, k: nat)
    requires k < |path|
    ensures path[..|path| - 1][|path| - 1 - k..] + [path[|path| - 1]] == path[|path| - 1 - k..]
  {
  }

  /** Path.IsPathRooted: a leading directory separator, or a drive letter before a colon. */
  predicate IsPathRooted(path: string)
  {
    (|path| >= 1 && (path[0] == '\\' || path[0] == '/')) || (|path| >= 2 && path[1] == ':')
  }

  /**
   * Path.Combine of two paths: an empty part yields the other, a rooted second part replaces
   * the first, otherwise the two are joined by a backslash unless the first already ends in a
   * separator.
   */
  function Combine(path1: string, path2: string): (r: string)
    ensures |path2| <= |r| && r[|r| - |path2|..] == path2
    ensures IsPathRooted(path2) ==> r == path2
    ensures !IsPathRooted(path2) ==> |path1| <= |r| && r[..|path1|] == path1
    ensures (|path1| > 0 && |path2| > 0 && !IsPathRooted(path2) && !IsSeparator(path1[|path1| - 1]))
              ==> r == path1 + "\\" + path2
  {
    if |path2| == 0 then path1
    else if |path1| == 0 then path2
    else if IsPathRooted(path2) then path2
    else if IsSeparator(path1[|path1| - 1]) then path1 + path2
    else path1 + "\\" + path2
  }

  /** Whatever precedes a separator-free name, up to a separator or the start, GetFileName drops. */
  lemma {:induction false} FileNameAfterSeparator(prefix: string, name: string)
    requires |name| > 0 && NoSeparator(name)
    requires |prefix| == 0 || IsSeparator(prefix[|prefix| - 1])
    ensures GetFileName(prefix + name) == name
  {
    var s := prefix + name;
    var f := GetFileName(s);
    assert s[|s| - |name|..] == name;
  }

  /** A file name put under any directory by Combine is what GetFileName takes back out. */
  lemma {:induction false} FileNameRoundTrip(dir: string, name: string)
    requires |name| > 0 && NoSeparator(name)
    ensures GetFileName(Combine(dir, name)) == name
  {
    assert !IsPathRooted(name) by {
      assert !IsSeparator(name[0]);
      if |name| >= 2 { assert !IsSeparator(name[1]); }
    }
    if |dir| == 0 {
      FileNameAfterSeparator("", name);
      assert "" + name == name;
    } else if IsSeparator(dir[|dir| - 1]) {
      FileNameAfterSeparator(dir, name);
    } else {
      FileNameAfterSeparator(dir + "\\", name);
    }
  }
}
