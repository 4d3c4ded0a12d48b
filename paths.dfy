/** Joining a directory and a name, as Go's path.Join does for clean inputs. */
module Paths {

  /** path.Join(dir, name) for a clean directory and a clean relative name:
      an empty side contributes nothing, otherwise the two are joined by one slash. */
  function Join(dir: string, name: string): (r: string)
    ensures dir <= r
    ensures |name| <= |r| && r[|r| - |name|..] == name
    ensures dir != "" && name != "" ==> |r| == |dir| + 1 + |name| && r[|dir|] == '/'
  {
    if dir == "" then name
    else if name == "" then dir
    else dir + "/" + name
  }
}
