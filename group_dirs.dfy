/** The groups directory on disk: one sub-directory per group, named after the group, holding
    one file per uploaded file, named after the file's id. Failures of the operating system are
    injected through a `fails` flag. */
module GroupDirs {

  /** Directory name -> ids of the files inside it. */
  type Dirs = map<string, set<nat>>

  /** The directories left after `os.RemoveAll` of every listed name whose removal does not
      fail; removing an absent directory is a no-op. */
  function RemoveEach(dirs: Dirs, names: seq<string>, failing: set<string>): (r: Dirs)
    ensures forall n :: n in r <==> n in dirs && !(n in names && n !in failing)
    ensures forall n :: n in r ==> r[n] == dirs[n]
  {
    dirs - (set n | n in names && n !in failing)
  }

  /** The directories after `os.Remove` of `<group>/<fileId>`: a failure, or a missing file
      or directory, leaves them as they are. */
  function FileRemoved(dirs: Dirs, group: string, fileId: nat, fails: bool): (r: Dirs)
    ensures r.Keys == dirs.Keys
    ensures forall n :: n in r && n != group ==> r[n] == dirs[n]
    ensures group in r ==> r[group] == if fails then dirs[group] else dirs[group] - {fileId}
  {
    if !fails && group in dirs then dirs[group := dirs[group] - {fileId}] else dirs
  }

  class FileSystem {
    var dirs: Dirs

    constructor (dirs: Dirs)
      ensures this.dirs == dirs
    {
      this.dirs := dirs;
    }

    /** `os.Stat` reports something other than "does not exist": the directory is there, or
        the call failed for another reason. */
    method StatNotAbsent(name: string, fails: bool) returns (present: bool)
      ensures present <==> name in dirs || fails
    {
      present := name in dirs || fails;
    }

    /** `os.Mkdir`: a new, empty directory. */
    method Mkdir(name: string, fails: bool) returns (ok: bool)
      modifies this
      ensures ok <==> !fails && name !in old(dirs)
      ensures ok ==> dirs == old(dirs)[name := {}]
      ensures !ok ==> dirs == old(dirs)
    {
      if fails || name in dirs {
        return false;
      }
      dirs := dirs[name := {}];
      return true;
    }

    /** `os.RemoveAll`: the directory and everything in it; nothing when it is absent. */
    method RemoveAll(name: string, fails: bool)
      modifies this
      ensures dirs == if fails then old(dirs) else old(dirs) - {name}
    {
      if !fails {
        dirs := dirs - {name};
      }
    }

    /** Saving an uploaded file as `<group>/<fileId>`. */
    method WriteFile(group: string, fileId: nat, fails: bool) returns (ok: bool)
      modifies this
      ensures ok <==> !fails && group in old(dirs)
      ensures ok ==> dirs == old(dirs)[group := old(dirs)[group] + {fileId}]
      ensures !ok ==> dirs == old(dirs)
    {
      if fails || group !in dirs {
        return false;
      }
      dirs := dirs[group := dirs[group] + {fileId}];
      return true;
    }

    /** `os.Remove` of `<group>/<fileId>`; a missing file or directory leaves things as they are. */
    method RemoveFile(group: string, fileId: nat, fails: bool)
      modifies this
      ensures dirs == FileRemoved(old(dirs), group, fileId, fails)
    {
      if !fails && group in dirs {
        dirs := dirs[group := dirs[group] - {fileId}];
      }
    }
  }
}
