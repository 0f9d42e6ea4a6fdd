/** GroupEraserJobImpl (web-server/internal/cron/async_job.go): the second phase of group
    deletion. It lists the deactivated groups, removes their directories, then erases their
    rows. The directory removals run concurrently in the code; they are independent of each
    other and are modelled as a loop. */
module AsyncJob {
  import opened Errors
  import opened Seqs
  import opened Models
  import opened Store
  import opened UamSpec
  import opened UamInvariants
  import opened UamDao
  import opened GroupDirs

  /** The store and the directories after one run of the job. */
  datatype World = World(tables: Tables, dirs: Dirs)

  /** One run of DeleteGroups. `listFault` and `eraseFault` are the faults of the two DAO
      calls; the directories named in `failing` are not removed, which the job ignores. */
  function EraserRun(w: World, listFault: Fault, failing: set<string>, eraseFault: Fault): (r: World)
    ensures GetDeactivatedGroupNames(w.tables, listFault).Err? ==> r == w
    ensures GetDeactivatedGroupNames(w.tables, listFault).Ok? ==>
      var names := GetDeactivatedGroupNames(w.tables, listFault).value;
      && r.dirs == RemoveEach(w.dirs, names, failing)
      && r.tables == EraseDeactivatedGroups(w.tables, names, eraseFault).tables
  {
    match GetDeactivatedGroupNames(w.tables, listFault)
    case Err(_) => w
    case Ok(names) =>
      World(EraseDeactivatedGroups(w.tables, names, eraseFault).tables, RemoveEach(w.dirs, names, failing))
  }

  /** No run removes the directory of a group that was not deactivated, or touches a
      directory that stays. */
  lemma EraserRemovesOnlyDeactivated(w: World, listFault: Fault, failing: set<string>, eraseFault: Fault)
    ensures var r := EraserRun(w, listFault, failing, eraseFault);
      && (forall n :: n in r.dirs ==> n in w.dirs && r.dirs[n] == w.dirs[n])
      && (forall n :: n in w.dirs && n !in r.dirs ==> exists g :: g in w.tables.groups && !g.active && g.name == n)
  {
  }

  /** When any of the erase's deletes fails, the transaction is rolled back: the directories
      listed are gone (unless their removal failed) but every row stays, the inactive ones still
      inactive, for the next run. The erase issues one delete per inactive row. */
  lemma EraseFailureKeepsRowsInactive(w: World, failing: set<string>, eraseFault: Fault)
    requires eraseFault.FailAt? && 1 <= eraseFault.step <= |Filter(w.tables.groups, Inactive)|
    ensures var r := EraserRun(w, NoFault, failing, eraseFault);
      && r.tables == w.tables
      && r.dirs == RemoveEach(w.dirs, GetDeactivatedGroupNames(w.tables, NoFault).value, failing)
  {
    var names := GetDeactivatedGroupNames(w.tables, NoFault).value;
    assert names == NamesOf(Filter(w.tables.groups, Inactive));
    assert eraseFault.HitsBy(|names|);
  }

  /** Whatever the faults of one run, a following run without faults leaves no inactive row
      and no directory of a group that was inactive before the first run, provided no
      directory removal fails. */
  lemma {:induction false} EraserConverges(w: World, listFault: Fault, eraseFault: Fault)
    ensures var r1 := EraserRun(w, listFault, {}, eraseFault);
      var r2 := EraserRun(r1, NoFault, {}, NoFault);
      && (forall g :: g in r2.tables.groups ==> g.active)
      && (forall g :: g in w.tables.groups && !g.active ==> g.name !in r2.dirs)
  {
    var r1 := EraserRun(w, listFault, {}, eraseFault);
    var r2 := EraserRun(r1, NoFault, {}, NoFault);
    EraseListedLeavesActive(r1.tables);
    forall g | g in w.tables.groups && !g.active ensures g.name !in r2.dirs {
      if r1.tables == w.tables {
        assert g in r1.tables.groups;
      } else {
        assert g.name !in r1.dirs;
      }
    }
  }

  /** Running the job again right after a run without faults changes nothing. */
  lemma EraserRunTwiceIsRunOnce(w: World)
    ensures var r1 := EraserRun(w, NoFault, {}, NoFault);
      EraserRun(r1, NoFault, {}, NoFault) == r1
  {
    var r1 := EraserRun(w, NoFault, {}, NoFault);
    EraseListedLeavesActive(w.tables);
    FilterKeepsNone(r1.tables.groups, Inactive);
    WithoutNoNames(r1.tables.groups);
  }

  /** A failed removal is never retried: once the row is erased, the name is no longer
      listed and its directory stays on disk. */
  lemma FailedRemovalIsLeftBehind(w: World, n: string)
    requires n in w.dirs && exists g :: g in w.tables.groups && !g.active && g.name == n
    ensures var r1 := EraserRun(w, NoFault, {n}, NoFault);
      && n in r1.dirs && !NameTaken(r1.tables.groups, n)
      && n in EraserRun(r1, NoFault, {}, NoFault).dirs
  {
  }

  class GroupEraserJobImpl {
    const uamDao: UamDaoImpl
    const fs: FileSystem

    constructor (uamDao: UamDaoImpl, fs: FileSystem)
      ensures this.uamDao == uamDao && this.fs == fs
    {
      this.uamDao := uamDao;
      this.fs := fs;
    }

    method DeleteGroups(listFault: Fault, failing: set<string>, eraseFault: Fault)
      requires uamDao.db.Valid()
      modifies uamDao.db, fs
      ensures World(uamDao.db.Snapshot(), fs.dirs)
              == EraserRun(old(World(uamDao.db.Snapshot(), fs.dirs)), listFault, failing, eraseFault)
      ensures uamDao.db.Valid()
    {
      var listed := uamDao.GetDeactivatedGroupNames(listFault);
      if listed.Err? {
        // logged; nothing removed and no erase attempted
        return;
      }
      RemoveGroupDirs(listed.value, failing);
      var _ := uamDao.EraseDeactivatedGroups(listed.value, eraseFault);
    }

    /** deleteGroups: one RemoveAll per name, errors ignored. */
    method RemoveGroupDirs(names: seq<string>, failing: set<string>)
      modifies fs
      ensures fs.dirs == RemoveEach(old(fs.dirs), names, failing)
    {
      ghost var start := fs.dirs;
      for k := 0 to |names|
        invariant fs.dirs == RemoveEach(start, names[..k], failing)
      {
        fs.RemoveAll(names[k], names[k] in failing);
        assert names[..k + 1] == names[..k] + [names[k]];
      }
      assert names[..|names|] == names;
    }
  }
}
