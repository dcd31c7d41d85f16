/**
 * Where an exported group is written: the group's name with every character outside
 * [A-Za-z0-9] replaced by `_` (line 276), under a folder named after its artboard
 * inside `Exported_Groups` next to the document (lines 23, 211, 277).
 */
module Naming {

  predicate IsAsciiAlphanumeric(c: char)
  {
    'a' <= c <= 'z' || 'A' <= c <= 'Z' || '0' <= c <= '9'
  }

  /** The characters a sanitised file name is made of. */
  predicate IsFileNameChar(c: char)
  {
    IsAsciiAlphanumeric(c) || c == '_'
  }

  /** A character JavaScript stores as one UTF-16 code unit, i.e. one in the Basic Multilingual Plane. */
  predicate IsBmp(c: char)
  {
    c as int < 0x1_0000
  }

  /** The length of `s` as JavaScript counts it: a character above U+FFFF is a surrogate pair. */
  function Utf16Length(s: string): nat
  {
    if s == [] then 0 else (if IsBmp(s[0]) then 1 else 2) + Utf16Length(s[1..])
  }

  /** What the replacement makes of the single character `c`. */
  function SanitizeChar(c: char): string
  {
    if IsAsciiAlphanumeric(c) then [c] else if IsBmp(c) then "_" else "__"
  }

  /**
   * `name.replace(/[^a-zA-Z0-9]/g, "_")`. Without the `u` flag the pattern matches single
   * UTF-16 code units, so a character above U+FFFF, two code units, becomes two `_`.
   */
  function Sanitize(name: string): (r: string)
    ensures |r| == Utf16Length(name)
    ensures forall i :: 0 <= i < |r| ==> IsFileNameChar(r[i])
  {
    if name == [] then [] else SanitizeChar(name[0]) + Sanitize(name[1..])
  }

  /**
   * For a name of characters up to U+FFFF, one code unit each: letters and digits are
   * kept in place and every other character becomes one `_`.
   */
  lemma {:induction false} SanitizeBmp(name: string)
    requires forall i :: 0 <= i < |name| ==> IsBmp(name[i])
    ensures |Sanitize(name)| == |name|
    ensures forall i :: 0 <= i < |name| ==>
      Sanitize(name)[i] == if IsAsciiAlphanumeric(name[i]) then name[i] else '_'
  {
    if name != [] {
      SanitizeBmp(name[1..]);
      assert forall i :: 1 <= i < |name| ==> name[i] == name[1..][i - 1];
    }
  }

  /** The replacement works character by character: a name split in two is sanitised piecewise. */
  lemma {:induction false} SanitizeConcat(a: string, b: string)
    ensures Sanitize(a + b) == Sanitize(a) + Sanitize(b)
    decreases |a|
  {
    if a == [] {
      assert a + b == b;
    } else {
      assert (a + b)[0] == a[0];
      assert (a + b)[1..] == a[1..] + b;
      SanitizeConcat(a[1..], b);
      assert Sanitize(a + b) == SanitizeChar(a[0]) + (Sanitize(a[1..]) + Sanitize(b));
    }
  }

  /** A name already made of letters and digits is its own file name. */
  lemma {:induction false} SanitizeKeepsCleanNames(name: string)
    requires forall i :: 0 <= i < |name| ==> IsAsciiAlphanumeric(name[i])
    ensures Sanitize(name) == name
  {
    assert forall i :: 0 <= i < |name| ==> IsBmp(name[i]);
    SanitizeBmp(name);
  }

  /** Sanitising a sanitised name changes nothing. */
  lemma {:induction false} SanitizeIdempotent(name: string)
    ensures Sanitize(Sanitize(name)) == Sanitize(name)
  {
    var once := Sanitize(name);
    assert forall i :: 0 <= i < |once| ==> IsBmp(once[i]);
    SanitizeBmp(once);
  }

  /** A worked example: "Hero/1!" is written as "Hero_1_". */
  lemma SanitizeExample()
    ensures Sanitize("Hero/1!") == "Hero_1_"
  {
  }

  /** A character outside the Basic Multilingual Plane, such as U+1F600, leaves two `_`. */
  lemma SanitizeSurrogatePair()
    ensures Sanitize("a\U{1F600}") == "a__"
  {
  }

  /** `doc.path + "/Exported_Groups"` (line 23). */
  function ExportFolder(documentPath: string): string
  {
    documentPath + "/Exported_Groups"
  }

  /** The path of a group's PNG (lines 211, 276-277). */
  function GroupFilePath(folder: string, artboard: string, group: string): string
  {
    folder + "/" + artboard + "/" + Sanitize(group) + ".png"
  }

  /** No character of a sanitised name followed by ".png" is a `/`. */
  lemma NoSlashInFileName(name: string)
    ensures forall i :: 0 <= i < |Sanitize(name) + ".png"| ==> (Sanitize(name) + ".png")[i] != '/'
  {
    var clean := Sanitize(name);
    var tail := clean + ".png";
    forall i | 0 <= i < |tail| ensures tail[i] != '/' {
      if i < |clean| {
        assert tail[i] == clean[i] && IsFileNameChar(clean[i]);
      } else if i == |clean| {
        assert tail[i] == '.';
      } else if i == |clean| + 1 {
        assert tail[i] == 'p';
      } else if i == |clean| + 2 {
        assert tail[i] == 'n';
      } else {
        assert tail[i] == 'g';
      }
    }
  }

  /**
   * A group's PNG lies directly in its artboard's folder: whatever the group is called,
   * the sanitised name adds no further `/` to the path, and the path ends in ".png".
   */
  lemma GroupFileIsInArtboardFolder(folder: string, artboard: string, group: string)
    ensures var p := GroupFilePath(folder, artboard, group);
      var dir := folder + "/" + artboard + "/";
      && dir <= p
      && (forall i :: |dir| <= i < |p| ==> p[i] != '/')
      && p[|p| - 4..] == ".png"
  {
    var dir := folder + "/" + artboard + "/";
    var tail := Sanitize(group) + ".png";
    var p := dir + tail;
    assert GroupFilePath(folder, artboard, group) == p;
    assert p[..|dir|] == dir;
    assert p[|p| - 4..] == ".png";
    NoSlashInFileName(group);
    assert forall i :: |dir| <= i < |p| ==> p[i] == tail[i - |dir|];
  }

  /** The temporary render of one group (line 116) is never the PNG of any group. */
  lemma TempIsNoGroupFile(folder: string, artboard: string, group: string,
                          folder': string, artboard': string, group': string)
    ensures GroupFilePath(folder, artboard, group) + ".temp" != GroupFilePath(folder', artboard', group')
  {
    var t := GroupFilePath(folder, artboard, group) + ".temp";
    var p := GroupFilePath(folder', artboard', group');
    assert t[|t| - 1] == 'p';
    assert p[|p| - 1] == 'g';
  }
}
