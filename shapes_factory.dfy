/**
 * The string logic by which ShapesFactory.java turns class-path entries into the names of
 * the shape classes to load. The entries themselves (directory listings, jar entries) are
 * given as sequences.
 */
module ShapesFactory {

  predicate StartsWith(s: string, prefix: string)
  {
    |prefix| <= |s| && s[..|prefix|] == prefix
  }

  predicate EndsWith(s: string, suffix: string)
  {
    |suffix| <= |s| && s[|s| - |suffix|..] == suffix
  }

  const CLASS_SUFFIX: string := ".class"

  /** removeExtension: drops the extension when the name ends with it, otherwise changes nothing. */
  function RemoveExtension(filename: string, extension: string): (r: string)
    ensures EndsWith(filename, extension) ==> r + extension == filename
    ensures !EndsWith(filename, extension) ==> r == filename
  {
    if EndsWith(filename, extension) then filename[..|filename| - |extension|] else filename
  }

  /** String.replaceAll with a one-character pattern: every `from` becomes `to`, nothing else changes. */
  function Replace(s: string, from: char, to: char): (r: string)
    ensures |r| == |s|
    ensures forall i :: 0 <= i < |s| ==> r[i] == if s[i] == from then to else s[i]
  {
    if s == [] then []
    else [if s[0] == from then to else s[0]] + Replace(s[1..], from, to)
  }

  /** Rewriting '.' to '/' and back gives the original name when it has no '/' of its own. */
  lemma ReplaceRoundTrip(s: string)
    requires '/' !in s
    ensures Replace(Replace(s, '.', '/'), '/', '.') == s
  {
  }

  /** The directory or jar path of a package: its name with '/' for '.'. */
  function PackagePath(packagename: string): (r: string)
    ensures '.' !in r && |r| == |packagename|
    ensures forall i :: 0 <= i < |r| && packagename[i] == '.' ==> r[i] == '/'
    ensures forall i :: 0 <= i < |r| && packagename[i] != '.' ==> r[i] == packagename[i]
  {
    Replace(packagename, '.', '/')
  }

  /** A jar entry is a class of the package: it starts with the package path and ends with ".class". */
  predicate KeepJarEntry(entry: string, packagepath: string)
  {
    StartsWith(entry, packagepath) && EndsWith(entry, CLASS_SUFFIX)
  }

  /** The class name of a kept jar entry: '/' becomes '.', and ".class" goes. */
  function JarClassName(entry: string): (r: string)
  {
    RemoveExtension(Replace(entry, '/', '.'), CLASS_SUFFIX)
  }

  /** The class name of a class file found in the package's directory. */
  function DirectoryClassName(packagename: string, filename: string): (r: string)
  {
    RemoveExtension(packagename + "." + filename, CLASS_SUFFIX)
  }

  /** A class entry's name is the entry without its suffix, with '.' for every '/'. */
  lemma JarClassNameSpec(entry: string)
    requires EndsWith(entry, CLASS_SUFFIX)
    ensures var r := JarClassName(entry);
      && |r| == |entry| - |CLASS_SUFFIX|
      && '/' !in r
      && (forall i :: 0 <= i < |r| && entry[i] == '/' ==> r[i] == '.')
      && (forall i :: 0 <= i < |r| && entry[i] != '/' ==> r[i] == entry[i])
  {
    var t := Replace(entry, '/', '.');
    assert t[|t| - 6..] == CLASS_SUFFIX by {
      assert forall i :: |t| - 6 <= i < |t| ==> t[i] == entry[i];
    }
  }

  /** A class file's name is the package, a dot, and the file name without ".class". */
  lemma DirectoryClassNameSpec(packagename: string, filename: string)
    requires EndsWith(filename, CLASS_SUFFIX)
    ensures DirectoryClassName(packagename, filename) ==
      packagename + "." + filename[..|filename| - |CLASS_SUFFIX|]
  {
    var whole := packagename + "." + filename;
    assert whole[|whole| - 6..] == filename[|filename| - 6..];
    assert whole[..|whole| - 6] == packagename + "." + filename[..|filename| - 6];
  }

  /**
   * Both listings name a class alike: the jar entry of a class file of the package and the
   * same file found in the package's directory give the same class name.
   */
  lemma {:induction false} JarAgreesWithDirectory(packagename: string, filename: string)
    requires '/' !in packagename && '/' !in filename
    requires EndsWith(filename, CLASS_SUFFIX)
    ensures KeepJarEntry(PackagePath(packagename) + "/" + filename, PackagePath(packagename))
    ensures JarClassName(PackagePath(packagename) + "/" + filename) == DirectoryClassName(packagename, filename)
  {
    var path := PackagePath(packagename);
    var entry := path + "/" + filename;
    assert entry[..|path|] == path;
    assert entry[|entry| - 6..] == filename[|filename| - 6..];
    var t := Replace(entry, '/', '.');
    assert t == packagename + "." + filename by {
      forall i | 0 <= i < |t|
        ensures t[i] == (packagename + "." + filename)[i]
      {
        if i < |path| {
          assert entry[i] == path[i];
          assert path[i] == (if packagename[i] == '.' then '/' else packagename[i]);
        } else if i > |path| {
          assert entry[i] == filename[i - |path| - 1];
        }
      }
    }
    JarClassNameSpec(entry);
  }

  /** The class names collected from a jar's entries: those kept, by JarClassName. */
  method ListJarfile(entries: seq<string>, packagename: string) returns (names: set<string>)
    ensures names == set e | e in entries && KeepJarEntry(e, PackagePath(packagename)) :: JarClassName(e)
  {
    var packagepath := PackagePath(packagename);
    names := {};
    var i := 0;
    while i < |entries|
      invariant 0 <= i <= |entries|
      invariant names == set e | e in entries[..i] && KeepJarEntry(e, packagepath) :: JarClassName(e)
    {
      assert entries[..i + 1] == entries[..i] + [entries[i]];
      if KeepJarEntry(entries[i], packagepath) {
        names := names + {JarClassName(entries[i])};
      }
      i := i + 1;
    }
    assert entries[..i] == entries;
  }

  /** The class names of the files of the package's directory that end with ".class". */
  method ListClassFiles(files: seq<string>, packagename: string) returns (names: set<string>)
    ensures names == set f | f in files && EndsWith(f, CLASS_SUFFIX) :: DirectoryClassName(packagename, f)
  {
    names := {};
    var i := 0;
    while i < |files|
      invariant 0 <= i <= |files|
      invariant names == set f | f in files[..i] && EndsWith(f, CLASS_SUFFIX) :: DirectoryClassName(packagename, f)
    {
      assert files[..i + 1] == files[..i] + [files[i]];
      if EndsWith(files[i], CLASS_SUFFIX) {
        names := names + {DirectoryClassName(packagename, files[i])};
      }
      i := i + 1;
    }
    assert files[..i] == files;
  }

  /** listDirectory: no names when the package has no directory, otherwise its class files' names. */
  method ListDirectory(isDirectory: bool, files: seq<string>, packagename: string) returns (names: set<string>)
    ensures !isDirectory ==> names == {}
    ensures isDirectory ==>
      names == set f | f in files && EndsWith(f, CLASS_SUFFIX) :: DirectoryClassName(packagename, f)
  {
    names := {};
    if isDirectory {
      names := ListClassFiles(files, packagename);
    }
  }
}
