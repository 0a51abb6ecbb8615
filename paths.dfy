/**
 * The string arithmetic the import linker uses to turn a file path inside
 * `node_modules/<package>` into a path relative to that package's root:
 * JavaScript's `lastIndexOf` and one-argument `substr`.
 */
module Paths {

  /** `sub` occurs in `s` starting at index `k`. */
  predicate OccursAt(s: string, sub: string, k: int) {
    0 <= k && k + |sub| <= |s| && s[k..k + |sub|] == sub
  }

  /** The greatest index `<= k` at which `sub` occurs in `s`, or -1. */
  function LastIndexAtOrBelow(s: string, sub: string, k: int): (r: int)
    requires k <= |s| - |sub|
    ensures r == -1 || 0 <= r <= k
    ensures r >= 0 ==> OccursAt(s, sub, r)
    ensures forall j :: r < j <= k ==> !OccursAt(s, sub, j)
    decreases k + 1
  {
    if k < 0 then -1
    else if s[k..k + |sub|] == sub then k
    else LastIndexAtOrBelow(s, sub, k - 1)
  }

  /** `s.lastIndexOf(sub)`: the last index at which `sub` occurs, or -1 when it never does. */
  function LastIndexOf(s: string, sub: string): (r: int)
    ensures -1 <= r <= |s|
    ensures r >= 0 ==> OccursAt(s, sub, r)
    ensures forall k :: r < k ==> !OccursAt(s, sub, k)
    ensures r == -1 <==> forall k :: !OccursAt(s, sub, k)
  {
    LastIndexAtOrBelow(s, sub, |s| - |sub|)
  }

  /** `s.substr(start)`: a negative start counts back from the end. */
  function Substr(s: string, start: int): (r: string)
    ensures 0 <= start <= |s| ==> r == s[start..]
    ensures |s| <= start ==> r == []
    ensures start < 0 ==> |r| == (if -start < |s| then -start else |s|) && r == s[|s| - |r|..]
  {
    if start < 0 then (if |s| + start < 0 then s else s[|s| + start..])
    else if start <= |s| then s[start..]
    else []
  }

  function ModulePart(packageName: string): string {
    "node_modules/" + packageName
  }

  /**
   * The path of a dependency's file relative to the dependency's root:
   * everything after the last `node_modules/<name>` and the separator that
   * follows it.
   */
  function RelativePath(path: string, packageName: string): (r: string)
    ensures |r| <= |path| && r == path[|path| - |r|..]
  {
    var modulePart := ModulePart(packageName);
    Substr(path, LastIndexOf(path, modulePart) + |modulePart| + 1)
  }

  /**
   * For a path `<prefix>node_modules/<name>/<rest>` in which no later
   * `node_modules/<name>` occurs, the relative path is `<rest>`.
   */
  lemma RelativePathAfterLastModulePart(prefix: string, packageName: string, rest: string)
    requires forall k :: |prefix| < k ==> !OccursAt(prefix + ModulePart(packageName) + "/" + rest, ModulePart(packageName), k)
    ensures RelativePath(prefix + ModulePart(packageName) + "/" + rest, packageName) == rest
  {
    var modulePart := ModulePart(packageName);
    var path := prefix + modulePart + "/" + rest;
    assert path[|prefix|..|prefix| + |modulePart|] == modulePart;
    assert OccursAt(path, modulePart, |prefix|);
    var i := LastIndexOf(path, modulePart);
    assert i == |prefix|;
    assert path[|prefix| + |modulePart| + 1..] == rest;
  }

  /**
   * When the path holds no `node_modules/<name>` at all, the relative path
   * is the path with its first `|node_modules/<name>|` characters cut off
   * (`lastIndexOf` gives -1, which the `+ 1` cancels).
   */
  lemma RelativePathWithoutModulePart(path: string, packageName: string)
    requires forall k :: !OccursAt(path, ModulePart(packageName), k)
    ensures var cut := |ModulePart(packageName)|;
            RelativePath(path, packageName) == if cut <= |path| then path[cut..] else []
  {
    assert LastIndexOf(path, ModulePart(packageName)) == -1;
  }

  /** An example: a file directly inside a dependency's root. */
  lemma RelativePathExample()
    ensures RelativePath("/w/node_modules/dep/x", "dep") == "x"
  {
    var path := "/w/" + ModulePart("dep") + "/" + "x";
    assert path == "/w/node_modules/dep/x";
    forall k | 3 < k
      ensures !OccursAt(path, ModulePart("dep"), k)
    {
      if k == 4 {
        assert path[4] == 'o';
      } else if k == 5 {
        assert path[5] == 'd';
      }
    }
    RelativePathAfterLastModulePart("/w/", "dep", "x");
  }
}
