/** splitpath: a path string split into drive, directory, file name and
    extension by pointer scans, and the default output name main derives from
    it. A C string is modelled as the sequence of its characters before the
    terminating NUL; reading at or past the end yields NUL. */
module PathSplit {
  predicate IsSeparator(c: char)
  {
    c == '\\' || c == '/'
  }

  /** A C string holds no NUL before its terminator. */
  predicate IsCString(s: seq<char>)
  {
    forall i :: 0 <= i < |s| ==> s[i] != '\0'
  }

  /** The character at index i of the C string s, NUL at and past its end. */
  function CharAt(s: seq<char>, i: nat): (c: char)
    requires IsCString(s)
    ensures c == '\0' <==> i >= |s|
  {
    if i < |s| then s[i] else '\0'
  }

  /** The index of the first ':' in s, or |s| when there is none. */
  function FirstColon(s: seq<char>): (k: nat)
    ensures k <= |s|
    ensures k < |s| ==> s[k] == ':'
    ensures forall i :: 0 <= i < k ==> s[i] != ':'
  {
    if |s| == 0 then 0
    else if s[0] == ':' then 0
    else 1 + FirstColon(s[1..])
  }

  /** The drive: the first two characters when the second is ':'. */
  function Drive(path: seq<char>): (drv: seq<char>)
    ensures |drv| == 0 || |drv| == 2
    ensures drv <= path
  {
    if |path| >= 2 && path[1] == ':' then path[..2] else []
  }

  /** The directory is empty or ends in a separator, and holds no ':'. */
  predicate DirShape(dir: seq<char>)
  {
    && (|dir| == 0 || IsSeparator(dir[|dir| - 1]))
    && forall i :: 0 <= i < |dir| ==> dir[i] != ':'
  }

  /** The name is one path component: no separator and no ':'. */
  predicate NameShape(name: seq<char>)
  {
    forall i :: 0 <= i < |name| ==> name[i] != ':' && !IsSeparator(name[i])
  }

  /** The extension is empty, or starts at a '.' that is the last one of the
      final component before the first ':', or starts at that ':'. */
  predicate ExtShape(ext: seq<char>)
  {
    && (|ext| == 0 || ext[0] == '.' || ext[0] == ':')
    && (|ext| > 0 && ext[0] == '.' ==>
          forall i :: 1 <= i < FirstColon(ext) ==> ext[i] != '.' && !IsSeparator(ext[i]))
  }

  /** Without a '.' extension, the name holds no '.'. */
  predicate DotPlacement(name: seq<char>, ext: seq<char>)
  {
    |ext| == 0 || ext[0] != '.' ==> forall i :: 0 <= i < |name| ==> name[i] != '.'
  }

  /** What splitpath promises of its four outputs. */
  ghost predicate IsSplit(path: seq<char>, drv: seq<char>, dir: seq<char>, name: seq<char>, ext: seq<char>)
  {
    && drv + dir + name + ext == path
    && drv == Drive(path)
    && DirShape(dir)
    && NameShape(name)
    && ExtShape(ext)
    && DotPlacement(name, ext)
  }

  /** One of the copy loops: the characters from index `from` up to `to`. */
  method CopyRange(s: seq<char>, from: nat, to: nat) returns (r: seq<char>)
    requires from <= to <= |s|
    ensures r == s[from..to]
  {
    r := [];
    var i := from;
    while i < to
      invariant from <= i <= to
      invariant r == s[from..i]
    {
      r := r + [s[i]];
      i := i + 1;
    }
  }

  /** splitpath with all four outputs present (as main calls it). */
  method SplitPath(path: seq<char>) returns (drv: seq<char>, dir: seq<char>, name: seq<char>, ext: seq<char>)
    requires IsCString(path)
    ensures IsSplit(path, drv, dir, name, ext)
  {
    var start := 0;
    if CharAt(path, 0) != '\0' && CharAt(path, 1) == ':' {
      drv := path[..2];
      start := 2;
    } else {
      drv := [];
    }
    // end: the first ':' of what follows the drive, or the terminator
    var end := start;
    while CharAt(path, end) != '\0' && CharAt(path, end) != ':'
      invariant start <= end <= |path|
      invariant forall i :: start <= i < end ==> path[i] != ':'
      decreases |path| - end
    {
      end := end + 1;
    }
    ghost var colon := end;
    // back from there to the last '.' before any separator
    var p := end;
    while p > start
      invariant start <= p <= end == colon
      invariant forall i :: p <= i < colon ==> path[i] != '.' && !IsSeparator(path[i])
    {
      p := p - 1;
      if IsSeparator(path[p]) {
        break;
      }
      if path[p] == '.' {
        end := p;
        break;
      }
    }
    ext := CopyRange(path, end, |path|);
    // back from the extension to just after the last separator
    p := end;
    while p > start
      invariant start <= p <= end
      invariant forall i :: p <= i < end ==> !IsSeparator(path[i])
    {
      p := p - 1;
      if IsSeparator(path[p]) {
        p := p + 1;
        break;
      }
    }
    name := CopyRange(path, p, end);
    dir := CopyRange(path, start, p);
    SplitEstablished(path, start, p, end, colon, drv, dir, name, ext);
  }

  /** The output name main builds when only an input is given: the input's
      drive, directory and name followed by "_out.wav". Since a path has
      one split, this is the input path with its extension replaced. */
  method DefaultOutputName(inFile: seq<char>) returns (outFile: seq<char>)
    requires IsCString(inFile)
    ensures forall drv, dir, name, ext :: IsSplit(inFile, drv, dir, name, ext) ==> outFile == drv + dir + name + "_out.wav"
    ensures |outFile| >= 8 && outFile[|outFile| - 8..] == "_out.wav" && outFile[..|outFile| - 8] <= inFile
  {
    var drive, dir, fname, ext := SplitPath(inFile);
    outFile := drive + dir + fname + "_out.wav";
    forall drv', dir', name', ext' | IsSplit(inFile, drv', dir', name', ext')
      ensures outFile == drv' + dir' + name' + "_out.wav"
    {
      SplitUnique(inFile, drive, dir, fname, ext, drv', dir', name', ext');
    }
    assert outFile[..|outFile| - 8] == drive + dir + fname;
    assert inFile == (drive + dir + fname) + ext;
  }

  /** A drive, and the last of two dots starting the extension. */
  lemma {:induction false} ExampleDriveAndDots()
    ensures IsSplit("C:\\music\\song.v1.wav", "C:", "\\music\\", "song.v1", ".wav")
  {
    var path: seq<char> := "C:\\music\\song.v1.wav";
    SplitEstablished(path, 2, 9, 16, 20, "C:", "\\music\\", "song.v1", ".wav");
  }

  /** A stream suffix after ':' stays in the extension. */
  lemma {:induction false} ExampleStreamSuffix()
    ensures IsSplit("dir/file.txt:ads", "", "dir/", "file", ".txt:ads")
  {
    SplitEstablished("dir/file.txt:ads", 0, 4, 8, 12, "", "dir/", "file", ".txt:ads");
  }

  /** With no '.' before the first ':', the extension starts at the ':'. */
  lemma {:induction false} ExampleColonOnly()
    ensures IsSplit("x/name:tag.b", "", "x/", "name", ":tag.b")
  {
    SplitEstablished("x/name:tag.b", 0, 2, 6, 6, "", "x/", "name", ":tag.b");
  }

  /** The index bookkeeping of SplitPath gives a split. */
  lemma {:induction false} SplitEstablished(path: seq<char>, start: nat, p: nat, end: nat, colon: nat,
                                            drv: seq<char>, dir: seq<char>, name: seq<char>, ext: seq<char>)
    requires drv == Drive(path) && |drv| == start
    requires start <= p <= end <= colon <= |path|
    requires colon < |path| ==> path[colon] == ':'
    requires forall i :: start <= i < colon ==> path[i] != ':'
    requires end < colon ==> path[end] == '.'
    requires forall i :: end < i < colon ==> path[i] != '.' && !IsSeparator(path[i])
    requires end == colon ==> forall i :: p <= i < colon ==> path[i] != '.'
    requires p > start ==> IsSeparator(path[p - 1])
    requires forall i :: p <= i < end ==> !IsSeparator(path[i])
    requires dir == path[start..p] && name == path[p..end] && ext == path[end..]
    ensures IsSplit(path, drv, dir, name, ext)
  {
    assert drv == path[..start];
    PartsConcatenate(path, start, p, end);
    DirEstablished(path, start, p, colon);
    NameEstablished(path, p, end, colon);
    ExtEstablished(path, end, colon);
  }

  lemma {:induction false} PartsConcatenate(path: seq<char>, start: nat, p: nat, end: nat)
    requires start <= p <= end <= |path|
    ensures path[..start] + path[start..p] + path[p..end] + path[end..] == path
  {
    assert path[..start] + path[start..p] == path[..p];
    assert path[..p] + path[p..end] == path[..end];
  }

  lemma {:induction false} DirEstablished(path: seq<char>, start: nat, p: nat, colon: nat)
    requires start <= p <= colon <= |path|
    requires forall i :: start <= i < colon ==> path[i] != ':'
    requires p > start ==> IsSeparator(path[p - 1])
    ensures DirShape(path[start..p])
  {
    var dir := path[start..p];
    assert forall i :: 0 <= i < |dir| ==> dir[i] == path[start + i];
  }

  lemma {:induction false} NameEstablished(path: seq<char>, p: nat, end: nat, colon: nat)
    requires p <= end <= colon <= |path|
    requires forall i :: p <= i < colon ==> path[i] != ':'
    requires end < colon ==> path[end] == '.'
    requires end == colon ==> forall i :: p <= i < colon ==> path[i] != '.'
    requires forall i :: p <= i < end ==> !IsSeparator(path[i])
    ensures NameShape(path[p..end])
    ensures DotPlacement(path[p..end], path[end..])
  {
    var name := path[p..end];
    assert forall i :: 0 <= i < |name| ==> name[i] == path[p + i];
  }

  lemma {:induction false} ExtEstablished(path: seq<char>, end: nat, colon: nat)
    requires end <= colon <= |path|
    requires colon < |path| ==> path[colon] == ':'
    requires forall i :: end <= i < colon ==> path[i] != ':'
    requires end < colon ==> path[end] == '.'
    requires forall i :: end < i < colon ==> path[i] != '.' && !IsSeparator(path[i])
    ensures ExtShape(path[end..])
  {
    var ext := path[end..];
    assert forall i :: 0 <= i < |ext| ==> ext[i] == path[end + i];
    FirstColonAt(ext, colon - end);
  }

  /** FirstColon is characterised by its contract. */
  lemma {:induction false} FirstColonAt(s: seq<char>, k: nat)
    requires k <= |s| && (k < |s| ==> s[k] == ':')
    requires forall i :: 0 <= i < k ==> s[i] != ':'
    ensures FirstColon(s) == k
  {
  }

  /** Where the parts of a split of rest (the path after its drive) fall,
      in terms of rest alone: e is where the extension starts and c is the
      first ':' of rest. */
  lemma {:induction false} SplitPositions(rest: seq<char>, dir: seq<char>, name: seq<char>, ext: seq<char>, e: nat, c: nat)
    requires dir + name + ext == rest && e == |dir| + |name| && c == FirstColon(rest)
    requires DirShape(dir) && NameShape(name) && ExtShape(ext) && DotPlacement(name, ext)
    ensures e <= c
    ensures |dir| > 0 ==> IsSeparator(rest[|dir| - 1])
    ensures forall i :: |dir| <= i < e ==> !IsSeparator(rest[i])
    ensures |ext| > 0 && ext[0] == '.' ==>
              e < c && rest[e] == '.' && forall i :: e < i < c ==> rest[i] != '.' && !IsSeparator(rest[i])
    ensures !(|ext| > 0 && ext[0] == '.') ==> e == c && forall i :: |dir| <= i < e ==> rest[i] != '.'
  {
    assert forall i :: 0 <= i < |dir| ==> rest[i] == dir[i];
    assert forall i :: |dir| <= i < e ==> rest[i] == name[i - |dir|];
    assert forall i :: e <= i < |rest| ==> rest[i] == ext[i - e];
    var k := FirstColon(ext);
    FirstColonAt(rest, e + k);
  }

  /** A path has exactly one split: IsSplit determines all four parts, so
      it is a complete description of splitpath. */
  lemma {:induction false} SplitUnique(path: seq<char>, drv1: seq<char>, dir1: seq<char>, name1: seq<char>, ext1: seq<char>,
                                       drv2: seq<char>, dir2: seq<char>, name2: seq<char>, ext2: seq<char>)
    requires IsSplit(path, drv1, dir1, name1, ext1)
    requires IsSplit(path, drv2, dir2, name2, ext2)
    ensures drv1 == drv2 && dir1 == dir2 && name1 == name2 && ext1 == ext2
  {
    var rest := path[|drv1|..];
    PartsOf(path, drv1, dir1, name1, ext1);
    PartsOf(path, drv2, dir2, name2, ext2);
    SameExtensionStart(rest, dir1, name1, ext1, dir2, name2, ext2);
    SameDirectory(rest, dir1, name1, ext1, dir2, name2, ext2);
  }

  /** The parts of a split are slices of the path after its drive. */
  lemma {:induction false} PartsOf(path: seq<char>, drv: seq<char>, dir: seq<char>, name: seq<char>, ext: seq<char>)
    requires drv + dir + name + ext == path
    ensures var rest, e := path[|drv|..], |dir| + |name|;
            && dir + name + ext == rest
            && dir == rest[..|dir|] && name == rest[|dir|..e] && ext == rest[e..]
  {
    var rest := path[|drv|..];
    assert path == drv + (dir + name + ext);
    assert dir + name + ext == rest;
    assert (dir + name) + ext == rest;
    assert dir + name == rest[..|dir| + |name|];
  }

  /** The extension starts at the same index in any two splits of rest. */
  lemma {:induction false} SameExtensionStart(rest: seq<char>, dir1: seq<char>, name1: seq<char>, ext1: seq<char>,
                                              dir2: seq<char>, name2: seq<char>, ext2: seq<char>)
    requires dir1 + name1 + ext1 == rest && DirShape(dir1) && NameShape(name1) && ExtShape(ext1) && DotPlacement(name1, ext1)
    requires dir2 + name2 + ext2 == rest && DirShape(dir2) && NameShape(name2) && ExtShape(ext2) && DotPlacement(name2, ext2)
    ensures |dir1| + |name1| == |dir2| + |name2|
  {
    var c := FirstColon(rest);
    var e1, e2 := |dir1| + |name1|, |dir2| + |name2|;
    SplitPositions(rest, dir1, name1, ext1, e1, c);
    SplitPositions(rest, dir2, name2, ext2, e2, c);
  }

  /** With the extension start fixed, the directory ends at the last
      separator before it. */
  lemma {:induction false} SameDirectory(rest: seq<char>, dir1: seq<char>, name1: seq<char>, ext1: seq<char>,
                                         dir2: seq<char>, name2: seq<char>, ext2: seq<char>)
    requires dir1 + name1 + ext1 == rest && DirShape(dir1) && NameShape(name1) && ExtShape(ext1) && DotPlacement(name1, ext1)
    requires dir2 + name2 + ext2 == rest && DirShape(dir2) && NameShape(name2) && ExtShape(ext2) && DotPlacement(name2, ext2)
    requires |dir1| + |name1| == |dir2| + |name2|
    ensures |dir1| == |dir2|
  {
    var c := FirstColon(rest);
    var e := |dir1| + |name1|;
    SplitPositions(rest, dir1, name1, ext1, e, c);
    SplitPositions(rest, dir2, name2, ext2, e, c);
  }
}
