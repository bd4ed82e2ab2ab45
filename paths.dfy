/** The parts of Python's `os.path` (posix) the widgets use on path strings. */
module Paths {
  import opened Text

  /** The directory part `os.path.join(dir, name)` puts before `name`. */
  function DirPrefix(dir: string): (r: string)
    ensures r == dir || r == dir + "/"
  {
    if dir == "" || EndsWith(dir, "/") then dir else dir + "/"
  }

  /** `os.path.join(dir, name)`: an absolute `name` discards `dir`. */
  function PathJoin(dir: string, name: string): (r: string)
    ensures !StartsWith(name, "/") ==> r == DirPrefix(dir) + name
    ensures StartsWith(name, "/") ==> r == name
  {
    if StartsWith(name, "/") then name else DirPrefix(dir) + name
  }

  /** One past the last `/` of `p`, or 0 when there is none. */
  function LastSlashEnd(p: string): (r: nat)
    ensures r <= |p|
    ensures r > 0 ==> p[r - 1] == '/'
    ensures forall k :: r <= k < |p| ==> p[k] != '/'
  {
    if p == [] then 0
    else if p[|p| - 1] == '/' then |p|
    else LastSlashEnd(p[..|p| - 1])
  }

  predicate AllSlashes(s: string) { forall k :: 0 <= k < |s| ==> s[k] == '/' }

  /** `s.rstrip('/')`. */
  function RStripSlashes(s: string): (r: string)
    ensures StartsWith(s, r)
    ensures r == [] || r[|r| - 1] != '/'
    ensures AllSlashes(s[|r|..])
  {
    if s == [] || s[|s| - 1] != '/' then s
    else
      var r := RStripSlashes(s[..|s| - 1]);
      assert s[..|s| - 1][|r|..] + "/" == s[|r|..];
      r
  }

  /** `os.path.dirname(p)`: everything up to the last `/`, without the trailing
      slashes unless the head is nothing but slashes. */
  function Dirname(p: string): (r: string)
    ensures '/' !in p ==> r == ""
    ensures StartsWith(p, r)
  {
    var head := p[..LastSlashEnd(p)];
    assert '/' !in p ==> LastSlashEnd(p) == 0;
    if head != [] && !AllSlashes(head) then RStripSlashes(head) else head
  }

  /** The directory of a file placed in `dir` is `dir` again, for a directory
      without a trailing slash and a plain file name. */
  lemma DirnameOfJoin(dir: string, name: string)
    requires dir != "" && dir[|dir| - 1] != '/'
    requires '/' !in name
    ensures Dirname(PathJoin(dir, name)) == dir
  {
    var p := PathJoin(dir, name);
    assert !StartsWith(name, "/") by {
      assert name == [] || (name[0] != '/' && name[..1] == [name[0]]);
    }
    assert !EndsWith(dir, "/") by {
      assert dir[|dir| - 1..] != "/";
    }
    assert p == dir + "/" + name;
    assert LastSlashEnd(p) == |dir| + 1 by {
      assert p[|dir|] == '/';
      assert forall k :: |dir| + 1 <= k < |p| ==> p[k] == name[k - |dir| - 1];
    }
    var head := p[..|dir| + 1];
    assert head == dir + "/";
    assert !AllSlashes(head) by {
      assert head[|dir| - 1] != '/';
    }
    var r := RStripSlashes(head);
    assert r == dir by {
      assert head[..|head| - 1] == dir;
      assert RStripSlashes(dir) == dir;
    }
  }
}
