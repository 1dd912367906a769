/**
 * The file names the command derives: the stylesheet and class file next to
 * the open document, and the three files of the new component.
 */
module Paths {
  import opened Wrappers
  import opened Text

  /**
   * `s.split(c)` for a one-character separator: the pieces between the
   * occurrences of `c`, always at least one (the empty string gives `[""]`).
   */
  function Split(s: seq<char>, c: char): (r: seq<seq<char>>)
    ensures |r| > 0
    ensures forall i :: 0 <= i < |r| ==> c !in r[i]
  {
    if |s| == 0 then [[]]
    else
      var pieces := Split(s[..|s| - 1], c);
      if s[|s| - 1] == c then pieces + [[]]
      else pieces[..|pieces| - 1] + [pieces[|pieces| - 1] + [s[|s| - 1]]]
  }

  /** `parts.join(c)`; the empty array joins to the empty string. */
  function Join(parts: seq<seq<char>>, c: char): seq<char>
  {
    if |parts| == 0 then []
    else if |parts| == 1 then parts[0]
    else Join(parts[..|parts| - 1], c) + [c] + parts[|parts| - 1]
  }

  /** Joining the pieces of a split gives back the string. */
  lemma {:induction false} JoinSplit(s: seq<char>, c: char)
    ensures Join(Split(s, c), c) == s
  {
    if |s| > 0 {
      var init := s[..|s| - 1];
      var pieces := Split(init, c);
      JoinSplit(init, c);
      if s[|s| - 1] == c {
        assert Split(s, c)[..|Split(s, c)| - 1] == pieces;
      } else if |pieces| == 1 {
        assert pieces == [init];
      } else {
        var r := Split(s, c);
        assert r[..|r| - 1] == pieces[..|pieces| - 1];
        assert Join(pieces, c) == Join(pieces[..|pieces| - 1], c) + [c] + pieces[|pieces| - 1];
      }
      assert init + [s[|s| - 1]] == s;
    }
  }

  /** Without a `c` in it, the whole string is the one piece. */
  lemma {:induction false} SplitWithout(s: seq<char>, c: char)
    requires c !in s
    ensures Split(s, c) == [s]
  {
    if |s| > 0 {
      SplitWithout(s[..|s| - 1], c);
      assert s[..|s| - 1] + [s[|s| - 1]] == s;
    }
  }

  /** Splitting at the last `c`: the pieces of the text before it, then the text after it. */
  lemma {:induction false} SplitAtLast(s: seq<char>, c: char, i: nat)
    requires i < |s| && s[i] == c && c !in s[i + 1..]
    ensures Split(s, c) == Split(s[..i], c) + [s[i + 1..]]
    decreases |s|
  {
    var init := s[..|s| - 1];
    if i == |s| - 1 {
      assert init == s[..i];
    } else {
      assert init[i + 1..] + [s[|s| - 1]] == s[i + 1..];
      SplitAtLast(init, c, i);
      assert init[..i] == s[..i];
    }
  }

  /**
   * The file next to `fileName` with extension `ext`:
   * `` `${fileName.split('.').slice(0, -1).join('.')}${ext}` ``.
   */
  function SiblingPath(fileName: seq<char>, ext: seq<char>): seq<char>
  {
    var pieces := Split(fileName, '.');
    Join(pieces[..|pieces| - 1], '.') + ext
  }

  /**
   * The sibling path is the file name up to, not including, its last `.`,
   * then `ext`; a name without a `.` gives `ext` alone.
   */
  lemma SiblingPathSpec(fileName: seq<char>, ext: seq<char>)
    ensures LastIndexOf(fileName, '.').None? ==> SiblingPath(fileName, ext) == ext
    ensures LastIndexOf(fileName, '.').Some? ==>
      SiblingPath(fileName, ext) == fileName[..LastIndexOf(fileName, '.').value] + ext
  {
    match LastIndexOf(fileName, '.')
    case None =>
      SplitWithout(fileName, '.');
    case Some(i) =>
      SplitAtLast(fileName, '.', i);
      var pieces := Split(fileName, '.');
      assert pieces[..|pieces| - 1] == Split(fileName[..i], '.');
      JoinSplit(fileName[..i], '.');
  }

  /** The new component's directory, `${dir}/${nameDashed}`. */
  function ComponentDir(dir: seq<char>, dashed: seq<char>): seq<char>
  {
    dir + "/" + dashed
  }

  /** A file of the new component, `${dir}/${nameDashed}/${nameDashed}.component${ext}`. */
  function ComponentFile(dir: seq<char>, dashed: seq<char>, ext: seq<char>): seq<char>
  {
    ComponentDir(dir, dashed) + "/" + dashed + ".component" + ext
  }

  /**
   * The three component files lie in the component directory, are named
   * after the dashed name, and are pairwise different.
   */
  lemma ComponentFilesApart(dir: seq<char>, dashed: seq<char>)
    ensures forall ext :: ext in [".ts", ".html", ".scss"] ==>
      var f := ComponentFile(dir, dashed, ext);
      |ComponentDir(dir, dashed)| < |f| && f[..|ComponentDir(dir, dashed)| + 1] == ComponentDir(dir, dashed) + "/"
    ensures ComponentFile(dir, dashed, ".ts") != ComponentFile(dir, dashed, ".html")
    ensures ComponentFile(dir, dashed, ".ts") != ComponentFile(dir, dashed, ".scss")
    ensures ComponentFile(dir, dashed, ".html") != ComponentFile(dir, dashed, ".scss")
  {
    var n := |ComponentDir(dir, dashed)| + 1 + |dashed| + 10;
    assert |ComponentFile(dir, dashed, ".ts")| == n + 3;
    assert |ComponentFile(dir, dashed, ".html")| == n + 5;
    var html, scss := ComponentFile(dir, dashed, ".html"), ComponentFile(dir, dashed, ".scss");
    assert html[n + 1] == 'h' && scss[n + 1] == 's';
    forall ext | ext in [".ts", ".html", ".scss"]
      ensures var f := ComponentFile(dir, dashed, ext);
        |ComponentDir(dir, dashed)| < |f| && f[..|ComponentDir(dir, dashed)| + 1] == ComponentDir(dir, dashed) + "/"
    {
      var f := ComponentFile(dir, dashed, ext);
      assert f == (ComponentDir(dir, dashed) + "/") + (dashed + ".component" + ext);
    }
  }

  /**
   * The class file the command reads can never be the stylesheet it has
   * just written: one ends in `.ts`, the other in `.scss`.
   */
  lemma SourceIsNotStylesTarget(fileName: seq<char>, dir: seq<char>, dashed: seq<char>)
    ensures SiblingPath(fileName, ".ts") != ComponentFile(dir, dashed, ".scss")
  {
    var a, b := SiblingPath(fileName, ".ts"), ComponentFile(dir, dashed, ".scss");
    assert a[|a| - 2] == 't';
    assert b[|b| - 2] == 's';
  }
}
