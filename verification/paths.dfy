/** File locations as the application uses them: a directory, a last path
    component, and the extension of that component. */
module Paths {
  import opened Text

  /** A directory, as its path components. */
  type Dir = seq<string>

  /** A file URL: the directory holding it and its last path component. */
  datatype Url = Url(dir: Dir, name: string)

  /** `url.appendingPathComponent(name)` on a directory. */
  function InDir(d: Dir, name: string): Url {
    Url(d, name)
  }

  /** The URL taken as a directory, for appending to it. */
  function AsDir(u: Url): Dir {
    u.dir + [u.name]
  }

  /** Index of the dot that starts the extension of `name`, or -1: the last
      dot, provided it is not the first character. */
  function ExtensionDot(name: string): (k: int)
    ensures k == -1 || (0 < k < |name| && name[k] == '.' && '.' !in name[k + 1..])
    ensures k == -1 ==> forall i :: 0 < i < |name| ==> name[i] != '.'
    decreases |name|
  {
    if |name| <= 1 then -1
    else if name[|name| - 1] == '.' then |name| - 1
    else
      var k := ExtensionDot(name[..|name| - 1]);
      assert k != -1 ==> name[k + 1..] == name[..|name| - 1][k + 1..] + [name[|name| - 1]];
      k
  }

  /** `pathExtension` of a file name. */
  function Extension(name: string): string {
    var k := ExtensionDot(name);
    if k == -1 then "" else name[k + 1..]
  }

  /** `deletingPathExtension().lastPathComponent`. */
  function BaseName(name: string): string {
    var k := ExtensionDot(name);
    if k == -1 then name else name[..k]
  }

  /** Splitting a name into base and extension loses nothing. */
  lemma BaseAndExtension(name: string)
    ensures ExtensionDot(name) != -1 ==> name == BaseName(name) + "." + Extension(name)
    ensures ExtensionDot(name) == -1 ==> name == BaseName(name) && Extension(name) == ""
  {
    var k := ExtensionDot(name);
    if k != -1 {
      assert name == name[..k] + [name[k]] + name[k + 1..];
    }
  }

  /** A base and a dot-free extension are recovered from the name built from
      them. */
  lemma {:induction false} ExtensionOfBuiltName(base: string, ext: string)
    requires |base| > 0 && '.' !in ext
    ensures ExtensionDot(base + "." + ext) == |base|
    ensures Extension(base + "." + ext) == ext
    ensures BaseName(base + "." + ext) == base
    decreases |ext|
  {
    var name := base + "." + ext;
    if |ext| == 0 {
      assert name[|name| - 1] == '.';
    } else {
      assert name[..|name| - 1] == base + "." + ext[..|ext| - 1];
      assert ext[|ext| - 1] in ext;
      ExtensionOfBuiltName(base, ext[..|ext| - 1]);
      assert name[|base| + 1..] == ext;
    }
  }
}
