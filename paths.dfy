/**
 * Slash-separated paths: Go's `filepath.Split` on a Unix host, and the
 * container id the migration derives from the source location.
 */
module Paths {

  const Separator: char := '/'

  /** `filepath.Split`: everything up to and including the last separator is
      the directory, the rest is the file name. Without a separator the
      directory is empty. */
  function Split(path: string): (r: (string, string))
    ensures r.0 + r.1 == path
    ensures Separator !in r.1
    ensures r.0 == [] || r.0[|r.0| - 1] == Separator
    decreases |path|
  {
    if path == [] then ([], [])
    else if path[|path| - 1] == Separator then (path, [])
    else
      var (dir, file) := Split(path[..|path| - 1]);
      assert dir + (file + [path[|path| - 1]]) == (dir + file) + [path[|path| - 1]];
      (dir, file + [path[|path| - 1]])
  }

  /** The three properties in Split's contract determine its result: there is
      exactly one way to cut a path into a directory ending in a separator (or
      empty) and a separator-free file name. */
  lemma {:induction false} SplitUnique(path: string, dir: string, file: string)
    requires dir + file == path
    requires Separator !in file
    requires dir == [] || dir[|dir| - 1] == Separator
    ensures Split(path) == (dir, file)
    decreases |file|
  {
    if file == [] {
      assert path == dir;
    } else {
      var n := |path|;
      var last := file[|file| - 1];
      assert path[n - 1] == last;
      assert last in file;
      assert path[..n - 1] == dir + file[..|file| - 1];
      assert forall c :: c in file[..|file| - 1] ==> c in file;
      SplitUnique(path[..n - 1], dir, file[..|file| - 1]);
      assert file[..|file| - 1] + [last] == file;
    }
  }

  /** Joining a directory and a separator-free name with "/" and splitting
      again gives the name back. */
  lemma SplitJoin(dir: string, name: string)
    requires Separator !in name
    ensures Split(dir + [Separator] + name) == (dir + [Separator], name)
  {
    SplitUnique(dir + [Separator] + name, dir + [Separator], name);
  }

  /** getContainerId: the last path segment of the source location. */
  function GetContainerId(path: string): (id: string)
    ensures Separator !in id
    ensures |id| <= |path| && path[|path| - |id|..] == id
    ensures |id| == |path| || path[|path| - |id| - 1] == Separator
  {
    var (dir, file) := Split(path);
    assert path[|dir|..] == file;
    file
  }

  /** The id is the LONGEST separator-free suffix: any suffix of the path that
      is itself preceded by a separator (or is the whole path) and contains no
      separator is the id. */
  lemma ContainerIdIsLastSegment(path: string, dir: string, id: string)
    requires path == dir + id
    requires Separator !in id
    requires dir == [] || dir[|dir| - 1] == Separator
    ensures GetContainerId(path) == id
  {
    SplitUnique(path, dir, id);
  }
}
