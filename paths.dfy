/**
 * The two questions the launcher's UI asks of a Windows path: `Path::file_name`
 * (the last component, when it is a plain name) and `Path::extension` (what
 * follows the last dot of that name). Both `\` and `/` separate components, a
 * drive prefix such as `C:` is not part of any name, empty and `.` components
 * are skipped, and a path ending in `..` has no file name. Names are compared
 * exactly, so the comparison is case-sensitive.
 */
module Paths {
  import opened Wrappers

  predicate IsSeparator(c: char)
  {
    c == '\\' || c == '/'
  }

  predicate NoSeparator(s: string)
  {
    forall i :: 0 <= i < |s| ==> !IsSeparator(s[i])
  }

  predicate IsDriveLetter(c: char)
  {
    'a' <= c <= 'z' || 'A' <= c <= 'Z'
  }

  /** The path without its drive prefix (`C:`), if it has one. */
  function WithoutDrive(path: string): (r: string)
    ensures |r| <= |path| && r == path[|path| - |r|..]
  {
    if |path| >= 2 && IsDriveLetter(path[0]) && path[1] == ':' then path[2..] else path
  }

  /** The characters after the last separator. */
  function LastSegment(s: string): (seg: string)
    ensures |seg| <= |s| && seg == s[|s| - |seg|..]
    ensures NoSeparator(seg)
    ensures |seg| < |s| ==> IsSeparator(s[|s| - |seg| - 1])
  {
    if s == [] || IsSeparator(s[|s| - 1]) then []
    else LastSegment(s[..|s| - 1]) + [s[|s| - 1]]
  }

  /** The last component of a path without a prefix: empty and `.` segments are skipped. */
  function LastName(s: string): (r: Option<string>)
    ensures r.Some? ==> r.value != [] && r.value != "." && r.value != ".." && NoSeparator(r.value)
    decreases |s|
  {
    var seg := LastSegment(s);
    if seg == [] || seg == "." then
      if |seg| < |s| then LastName(s[..|s| - |seg| - 1]) else None
    else if seg == ".." then None
    else Some(seg)
  }

  /** `Path::file_name` on Windows. */
  function FileName(path: string): (r: Option<string>)
    ensures r.Some? ==> r.value != [] && r.value != "." && r.value != ".." && NoSeparator(r.value)
  {
    LastName(WithoutDrive(path))
  }

  /** The position of the last dot of `name`, if there is one. */
  function LastDot(name: string): (r: Option<nat>)
    ensures r.Some? ==> r.value < |name| && name[r.value] == '.' && '.' !in name[r.value + 1..]
    ensures r.None? ==> '.' !in name
  {
    if name == [] then None
    else if name[|name| - 1] == '.' then Some(|name| - 1)
    else
      var r := LastDot(name[..|name| - 1]);
      assert name == name[..|name| - 1] + [name[|name| - 1]];
      r
  }

  /** The extension of a file name: after its last dot, unless that dot is the name's first character. */
  function NameExtension(name: string): (r: Option<string>)
    ensures r.Some? ==> '.' !in r.value && |r.value| + 2 <= |name|
    ensures r.Some? ==> name[|name| - |r.value| - 1..] == "." + r.value
  {
    match LastDot(name)
    case None => None
    case Some(i) => if i == 0 then None else Some(name[i + 1..])
  }

  /** `Path::extension` on Windows. */
  function Extension(path: string): (r: Option<string>)
    ensures r.Some? ==> FileName(path).Some? && '.' !in r.value
    ensures r.Some? ==> var name := FileName(path).value;
      |r.value| + 2 <= |name| && name[|name| - |r.value| - 1..] == "." + r.value
  {
    var name := FileName(path);
    if name.None? then None else NameExtension(name.value)
  }

  lemma {:induction false} LastSegmentOfJoin(dir: string, sep: char, name: string)
    requires IsSeparator(sep) && NoSeparator(name)
    ensures LastSegment(dir + [sep] + name) == name
    decreases |name|
  {
    var s := dir + [sep] + name;
    if name == [] {
      assert s[|s| - 1] == sep;
    } else {
      assert s[..|s| - 1] == dir + [sep] + name[..|name| - 1];
      LastSegmentOfJoin(dir, sep, name[..|name| - 1]);
      assert name[..|name| - 1] + [name[|name| - 1]] == name;
    }
  }

  lemma WithoutDriveOfJoin(dir: string, sep: char, name: string)
    requires IsSeparator(sep)
    ensures WithoutDrive(dir + [sep] + name) == WithoutDrive(dir) + [sep] + name
  {
    var s := dir + [sep] + name;
    if |dir| >= 2 {
      assert s[0] == dir[0] && s[1] == dir[1];
      if IsDriveLetter(dir[0]) && dir[1] == ':' {
        assert s[2..] == dir[2..] + [sep] + name;
      }
    } else if |dir| == 1 {
      assert s[1] == sep;
    } else {
      assert s[0] == sep;
    }
  }

  /** A plain name joined onto any directory is that path's file name and, optionally, a trailing separator. */
  lemma FileNameOfJoin(dir: string, sep: char, name: string)
    requires IsSeparator(sep) && NoSeparator(name)
    requires name != [] && name != "." && name != ".."
    ensures FileName(dir + [sep] + name) == Some(name)
    ensures FileName(dir + [sep] + name + [sep]) == Some(name)
  {
    WithoutDriveOfJoin(dir, sep, name);
    var body := WithoutDrive(dir) + [sep] + name;
    LastSegmentOfJoin(WithoutDrive(dir), sep, name);
    WithoutDriveOfJoin(dir + [sep] + name, sep, []);
    var trailing := body + [sep];
    assert dir + [sep] + name + [sep] + [] == dir + [sep] + name + [sep];
    assert WithoutDrive(dir + [sep] + name) + [sep] + [] == trailing;
    LastSegmentOfJoin(body, sep, []);
    assert trailing[..|trailing| - 0 - 1] == body;
  }

  /** A name carries the extension after its last dot, whatever comes before it. */
  lemma NameExtensionOf(stem: string, ext: string)
    requires stem != [] && '.' !in ext
    ensures NameExtension(stem + "." + ext) == Some(ext)
  {
    var name := stem + "." + ext;
    LastDotOf(stem, ext);
    assert name[|stem| + 1..] == ext;
  }

  lemma {:induction false} LastDotOf(stem: string, ext: string)
    requires '.' !in ext
    ensures LastDot(stem + "." + ext) == Some(|stem|)
    decreases |ext|
  {
    var name := stem + "." + ext;
    if ext == [] {
      assert name[|name| - 1] == '.';
    } else {
      assert name[|name| - 1] == ext[|ext| - 1];
      assert ext[|ext| - 1] in ext;
      assert name[..|name| - 1] == stem + "." + ext[..|ext| - 1];
      assert forall c :: c in ext[..|ext| - 1] ==> c in ext;
      LastDotOf(stem, ext[..|ext| - 1]);
    }
  }

  /** A name whose only dot is its first character (`.dll`) has no extension. */
  lemma LeadingDotIsNoExtension(ext: string)
    requires '.' !in ext
    ensures NameExtension("." + ext) == None
  {
    LastDotOf([], ext);
  }

  /** A file joined onto any directory has the extension after the last dot of its name. */
  lemma ExtensionOfJoin(dir: string, sep: char, stem: string, ext: string)
    requires IsSeparator(sep) && NoSeparator(stem) && NoSeparator(ext)
    requires stem != [] && stem != "." && '.' !in ext
    ensures FileName(dir + [sep] + (stem + "." + ext)) == Some(stem + "." + ext)
    ensures Extension(dir + [sep] + (stem + "." + ext)) == Some(ext)
  {
    var name := stem + "." + ext;
    assert NoSeparator(name) by {
      forall i | 0 <= i < |name|
        ensures !IsSeparator(name[i])
      {
        if i < |stem| {
          assert name[i] == stem[i];
        } else if i > |stem| {
          assert name[i] == ext[i - |stem| - 1];
        }
      }
    }
    assert name != ".." by {
      assert name[0] == stem[0];
      assert |stem| == 1 ==> stem[0] != '.' by {
        if |stem| == 1 {
          assert stem == [stem[0]];
        }
      }
    }
    FileNameOfJoin(dir, sep, name);
    NameExtensionOf(stem, ext);
  }

  /** A path whose last component is `..` has no file name. */
  lemma ParentComponentHasNoFileName(dir: string, sep: char)
    requires IsSeparator(sep)
    ensures FileName(dir + [sep] + "..") == None
  {
    WithoutDriveOfJoin(dir, sep, "..");
    LastSegmentOfJoin(WithoutDrive(dir), sep, "..");
  }
}
