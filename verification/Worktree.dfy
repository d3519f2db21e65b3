/**
  The checkout that several processes share per revision (tools/harness/unitseam.py, worktree
  and _ready).  Every process takes a file lock, looks for a completeness marker, may adopt an
  unmarked but clean checkout, and otherwise deletes what is there and checks out again.

  The processes are interleaved step by step, a git command or a recursive deletion is a series
  of small steps that may stop anywhere, and a process may be killed at any point, which frees
  its lock.  The git command that it was running may end with it or go on.
 */
module Worktree {
  import opened Collections

  // ---------------------------------------------------------------- the files

  /** The shared path and its git administration: whether the path exists, which administrative
      directory its .git file names, the administrative directories with their markers, and
      whether all tracked files and the index are in place. */
  datatype Files = Files(present: bool, gitfile: Option<nat>, admins: map<nat, bool>, tree: bool)

  predicate HasAdmin(fs: Files) {
    fs.present && fs.gitfile.Some? && fs.gitfile.value in fs.admins
  }

  /** A finished checkout. */
  predicate Complete(fs: Files) {
    HasAdmin(fs) && fs.tree
  }

  /** The marker that the path's own .git file leads to. */
  predicate Marked(fs: Files) {
    HasAdmin(fs) && fs.admins[fs.gitfile.value]
  }

  // ---------------------------------------------------------------- the processes

  datatype PC =
    | Outside              // before the lock
    | Testing              // _ready: about to read .git
    | Looking(adm: nat)    // _ready: about to look for the directory and the marker
    | Asking(adm: nat)     // _ready: about to run git status
    | Adopting(adm: nat)   // _ready: about to write the marker of a clean checkout
    | Deciding             // not ready: does the path exist?
    | Removing             // git worktree remove --force is running
    | Rechecking           // does the path still exist?
    | Deleting             // the recursive deletion is running
    | Pruning(doomed: set<nat>)  // git worktree prune is running, with the stale entries it has seen
    | Adding(made: Option<nat>)  // git worktree add is running, with the directory it made
    | Marking              // about to write the marker
    | Leaving              // about to unlock and return the path
    | Raising              // about to unlock and raise
    | Returned
    | Failed
    | Dead
    | Orphan(command: PC)  // a git command whose process is dead or serves another revision

  predicate Holds(pc: PC) {
    !(pc.Outside? || pc.Returned? || pc.Failed? || pc.Dead? || pc.Orphan?)
  }

  /** The git commands that change files; the recursive deletion is no process of its own. */
  datatype Command = Remove | Prune | Add

  function CommandOf(pc: PC): Option<Command> {
    match pc
    case Removing => Some(Remove)
    case Pruning(_) => Some(Prune)
    case Adding(_) => Some(Add)
    case _ => None
  }

  /** What the code cannot decide: the files for which git status may find nothing, the commands that
      may outlive a killed process (or a timeout, after which the process raises), and whether
      processes of other revisions, which hold other locks, prune meanwhile. */
  datatype World = World(looks: Files -> bool, survives: set<Command>, foreign: bool)

  /** Between finding the checkout not ready and having marked a new one. */
  predicate Creating(pc: PC) {
    pc.Deciding? || pc.Removing? || pc.Rechecking? || pc.Deleting? || pc.Pruning? || pc.Adding? || pc.Marking?
  }

  datatype State = State(fs: Files, lock: Option<nat>, pcs: map<nat, PC>)

  datatype Act =
    | Lock
    | ReadGitfile
    | LookUp
    | Status(clean: bool)
    | WriteMarker
    | TestExists
    | Inspect(id: nat)     // git worktree prune reads an entry
    | DropFiles            // some tracked file goes
    | DropGitfile
    | DropAdmin(id: nat)
    | DropDir              // the rest of the path goes
    | MakeAdmin(id: nat)
    | WriteGitfile
    | CheckOut
    | End(ok: bool)        // the running command ends
    | Unlock
    | Kill(survives: bool)

  // ---------------------------------------------------------------- one step

  predicate IsDrop(a: Act) {
    a.DropFiles? || a.DropGitfile? || a.DropAdmin? || a.DropDir?
  }

  /** What a deleting step does to the files. */
  function Drop(fs: Files, a: Act): Files
    requires IsDrop(a)
  {
    match a
    case DropFiles => fs.(tree := false)
    case DropGitfile => fs.(gitfile := None, tree := false)
    case DropDir => fs.(present := false, gitfile := None, tree := false)
    case DropAdmin(id) =>
      fs.(admins := map k | k in fs.admins && k != id :: fs.admins[k], tree := fs.tree && fs.gitfile != Some(id))
  }

  /** _ready, step by step. */
  function WorkTest(looks: Files -> bool, fs: Files, pc: PC, a: Act): Option<(PC, Files)> {
    match pc
    case Testing =>
      if !a.ReadGitfile? then None
      else Some((if fs.present && fs.gitfile.Some? then Looking(fs.gitfile.value) else Deciding, fs))
    case Looking(adm) =>
      if !a.LookUp? then None
      else Some((if adm !in fs.admins then Deciding else if fs.admins[adm] then Leaving else Asking(adm), fs))
    case Asking(adm) =>
      if !a.Status? then None
      else Some((if a.clean && looks(fs) then Adopting(adm) else Deciding, fs))
    case Adopting(adm) =>
      if !a.WriteMarker? then None
      else if adm in fs.admins then Some((Leaving, fs.(admins := fs.admins[adm := true])))
      else Some((Raising, fs))
    case _ => None
  }

  /** Deleting what is there: git worktree remove, then a recursive deletion if the path is still
      there, then git worktree prune, which reads an entry, and drops it later if it was stale. */
  function WorkDelete(fs: Files, pc: PC, a: Act): Option<(PC, Files)> {
    match pc
    case Deciding => if a.TestExists? then Some((if fs.present then Removing else Pruning({}), fs)) else None
    case Removing =>
      if a.End? then Some((Rechecking, fs))
      else if IsDrop(a) then Some((Removing, Drop(fs, a)))
      else None
    case Rechecking => if a.TestExists? then Some((if fs.present then Deleting else Pruning({}), fs)) else None
    case Deleting =>
      if a.End? then Some((Pruning({}), fs))
      else if IsDrop(a) && !a.DropAdmin? then Some((Deleting, Drop(fs, a)))
      else None
    case Pruning(doomed) =>
      if a.End? then Some((Adding(None), fs))
      else if a.Inspect? && fs.gitfile != Some(a.id) then Some((Pruning(doomed + {a.id}), fs))
      else if a.DropAdmin? && a.id in doomed then Some((pc, Drop(fs, a)))
      else None
    case _ => None
  }

  /** git worktree add, which may fail anywhere and delete what it made, and the marker. */
  function WorkAdd(fs: Files, pc: PC, a: Act): Option<(PC, Files)> {
    match pc
    case Adding(made) =>
      if a.End? then
        if !a.ok then Some((Raising, fs))
        else if made.Some? && fs.gitfile == made && Complete(fs) then Some((Marking, fs))
        else None
      else if a.MakeAdmin? then
        if made.None? && a.id !in fs.admins
        then Some((Adding(Some(a.id)), fs.(admins := fs.admins[a.id := false])))
        else None
      else if a.WriteGitfile? then
        if made.Some? then Some((pc, fs.(present := true, gitfile := made, tree := false))) else None
      else if a.CheckOut? then
        if HasAdmin(fs) && fs.gitfile == made then Some((pc, fs.(tree := true))) else None
      else if IsDrop(a) then Some((pc, Drop(fs, a)))
      else None
    case Marking =>
      if !a.WriteMarker? then None
      else if HasAdmin(fs) then Some((Leaving, fs.(admins := fs.admins[fs.gitfile.value := true])))
      else Some((Raising, fs))
    case _ => None
  }

  /** The step of a process that holds the lock: its next place and the files, or None when the
      step is not its next one. */
  function Work(looks: Files -> bool, fs: Files, pc: PC, a: Act): Option<(PC, Files)> {
    if pc.Testing? || pc.Looking? || pc.Asking? || pc.Adopting? then WorkTest(looks, fs, pc, a)
    else if pc.Adding? || pc.Marking? then WorkAdd(fs, pc, a)
    else WorkDelete(fs, pc, a)
  }

  /** A small step of a running git command or deletion. */
  predicate IsPartial(a: Act) {
    IsDrop(a) || a.Inspect? || a.MakeAdmin? || a.WriteGitfile? || a.CheckOut?
  }

  function StepWork(w: World, s: State, p: nat, a: Act): State
    requires p in s.pcs
  {
    var next := Work(w.looks, s.fs, s.pcs[p], a);
    if next.Some? then s.(fs := next.value.1, pcs := s.pcs[p := next.value.0]) else s
  }

  /** A command whose process is dead goes on, or ends. */
  function StepOrphan(w: World, s: State, p: nat, a: Act): State
    requires p in s.pcs && s.pcs[p].Orphan?
  {
    var next := Work(w.looks, s.fs, s.pcs[p].command, a);
    if a.End? then s.(pcs := s.pcs[p := Dead])
    else if IsPartial(a) && next.Some? then s.(fs := next.value.1, pcs := s.pcs[p := Orphan(next.value.0)])
    else s
  }

  /** What is left of a process that is killed. */
  function Killed(w: World, pc: PC, survives: bool): PC {
    var c := CommandOf(pc);
    if survives && c.Some? && c.value in w.survives then Orphan(pc) else Dead
  }

  /** One step of one process; a step that is not possible changes nothing. */
  function Step(w: World, s: State, p: nat, a: Act): State {
    if p !in s.pcs then s
    else if s.pcs[p].Orphan? then StepOrphan(w, s, p, a)
    else if a.Lock? then
      if s.pcs[p].Outside? && s.lock.None? then s.(lock := Some(p), pcs := s.pcs[p := Testing]) else s
    else if a.Unlock? then
      if s.pcs[p].Leaving? then s.(lock := None, pcs := s.pcs[p := Returned])
      else if s.pcs[p].Raising? then s.(lock := None, pcs := s.pcs[p := Failed])
      else s
    else if a.Kill? then
      if Holds(s.pcs[p]) then s.(lock := None, pcs := s.pcs[p := Killed(w, s.pcs[p], a.survives)])
      else if s.pcs[p].Outside? then s.(pcs := s.pcs[p := Dead])
      else s
    else StepWork(w, s, p, a)
  }

  function Exec(w: World, s: State, schedule: seq<(nat, Act)>): State
    decreases |schedule|
  {
    if schedule == [] then s else Exec(w, Step(w, s, schedule[0].0, schedule[0].1), schedule[1..])
  }

  /** Any number of processes before the lock, and perhaps of pruning ones of other revisions, over files
      in which only a finished checkout is marked. */
  ghost predicate Init(w: World, s: State) {
    && s.lock.None? && (Marked(s.fs) ==> Complete(s.fs))
    && (forall p | p in s.pcs :: s.pcs[p].Outside? || (w.foreign && s.pcs[p] == Orphan(Pruning({}))))
  }

  // ---------------------------------------------------------------- the invariant

  /** What the lock holder knows at each place. */
  ghost predicate Known(pc: PC, fs: Files) {
    match pc
    case Looking(adm) => fs.present && fs.gitfile == Some(adm)
    case Asking(adm) => HasAdmin(fs) && fs.gitfile == Some(adm) && !Marked(fs)
    case Adopting(adm) => Complete(fs) && fs.gitfile == Some(adm) && !Marked(fs)
    case Adding(made) => !Marked(fs) && (made.Some? && made.value in fs.admins ==> !fs.admins[made.value])
    case Marking => Complete(fs) && !Marked(fs)
    case Leaving => Marked(fs)
    case _ => Creating(pc) ==> !Marked(fs)
  }

  /** Git status finds something in every unmarked checkout that is not finished. */
  ghost predicate HonestStatus(looks: Files -> bool) {
    forall fs | HasAdmin(fs) && !Marked(fs) && looks(fs) :: Complete(fs)
  }

  /** A world in which the promise holds: git status is honest, no command outlives its process, and no
      process of another revision prunes. */
  ghost predicate Kind(w: World) {
    HonestStatus(w.looks) && w.survives == {} && !w.foreign
  }

  ghost predicate Inv(s: State) {
    && (forall p | p in s.pcs :: Holds(s.pcs[p]) <==> s.lock == Some(p))
    && (s.lock.Some? ==> s.lock.value in s.pcs)
    && (forall p | p in s.pcs :: Holds(s.pcs[p]) ==> Known(s.pcs[p], s.fs))
    && (forall p | p in s.pcs :: s.pcs[p].Returned? ==> Marked(s.fs))
    && (forall p | p in s.pcs :: !s.pcs[p].Orphan?)
    && (Marked(s.fs) ==> Complete(s.fs))
  }

  /** A step of the holder keeps what is known, and touches nothing that is marked. */
  lemma {:induction false} WorkKeeps(looks: Files -> bool, fs: Files, pc: PC, a: Act)
    requires HonestStatus(looks) && Holds(pc) && Known(pc, fs) && (Marked(fs) ==> Complete(fs))
    requires Work(looks, fs, pc, a).Some?
    ensures var (pc', fs') := Work(looks, fs, pc, a).value;
            && Holds(pc') && Known(pc', fs')
            && (Marked(fs') ==> Complete(fs'))
            && (Marked(fs) ==> fs' == fs)
  {
    assert a.Status? && looks(fs) && HasAdmin(fs) && !Marked(fs) ==> Complete(fs);
  }

  lemma {:induction false} StepWorkKeepsInv(w: World, s: State, p: nat, a: Act)
    requires Kind(w) && Inv(s) && p in s.pcs && Holds(s.pcs[p])
    ensures Inv(StepWork(w, s, p, a))
    ensures Marked(s.fs) ==> StepWork(w, s, p, a).fs == s.fs
  {
    if Work(w.looks, s.fs, s.pcs[p], a).Some? {
      WorkKeeps(w.looks, s.fs, s.pcs[p], a);
    }
  }

  /** Taking and giving back the lock, and dying, keep the invariant. */
  lemma {:induction false} TurnsKeepInv(w: World, s: State, p: nat, a: Act)
    requires Kind(w) && Inv(s) && p in s.pcs && (a.Lock? || a.Unlock? || a.Kill?)
    ensures Inv(Step(w, s, p, a)) && Step(w, s, p, a).fs == s.fs
  {
  }

  lemma {:induction false} StepKeepsInv(w: World, s: State, p: nat, a: Act)
    requires Kind(w) && Inv(s)
    ensures Inv(Step(w, s, p, a))
    ensures Marked(s.fs) ==> Step(w, s, p, a).fs == s.fs
  {
    if p in s.pcs {
      if a.Lock? || a.Unlock? || a.Kill? {
        TurnsKeepInv(w, s, p, a);
      } else if Holds(s.pcs[p]) {
        StepWorkKeepsInv(w, s, p, a);
      } else {
        assert Work(w.looks, s.fs, s.pcs[p], a).None?;
      }
    }
  }

  lemma {:induction false} ExecKeepsInv(w: World, s: State, schedule: seq<(nat, Act)>)
    requires Kind(w) && Inv(s)
    ensures Inv(Exec(w, s, schedule))
    decreases |schedule|
  {
    if schedule != [] {
      var (p, a) := schedule[0];
      StepKeepsInv(w, s, p, a);
      ExecKeepsInv(w, Step(w, s, p, a), schedule[1..]);
    }
  }

  // ---------------------------------------------------------------- what the protocol promises

  ghost predicate Safe(s: State) {
    && (forall p | p in s.pcs && s.pcs[p].Returned? :: Complete(s.fs) && Marked(s.fs))
    && (Marked(s.fs) ==> Complete(s.fs))
    && (forall p, q | p in s.pcs && q in s.pcs && Creating(s.pcs[p]) && Creating(s.pcs[q]) :: p == q)
  }

  /** For every interleaving and every crash: a returned path is a finished, marked checkout, only
      finished checkouts are marked, and at most one process is creating. */
  lemma {:induction false} AlwaysSafe(w: World, s: State, schedule: seq<(nat, Act)>)
    requires Kind(w) && Init(w, s)
    ensures Safe(Exec(w, s, schedule))
  {
    ExecKeepsInv(w, s, schedule);
  }

  lemma {:induction false} ExecAppend(w: World, s: State, before: seq<(nat, Act)>, after: seq<(nat, Act)>)
    ensures Exec(w, s, before + after) == Exec(w, Exec(w, s, before), after)
    decreases |before|
  {
    if before == [] {
      assert before + after == after;
    } else {
      assert (before + after)[1..] == before[1..] + after;
      ExecAppend(w, Step(w, s, before[0].0, before[0].1), before[1..], after);
    }
  }

  /** A marked checkout stays as it is. */
  lemma {:induction false} MarkedStays(w: World, s: State, schedule: seq<(nat, Act)>)
    requires Kind(w) && Inv(s) && Marked(s.fs)
    ensures Exec(w, s, schedule).fs == s.fs
    decreases |schedule|
  {
    if schedule != [] {
      var (p, a) := schedule[0];
      StepKeepsInv(w, s, p, a);
      MarkedStays(w, Step(w, s, p, a), schedule[1..]);
    }
  }

  lemma {:induction false} NoneCreates(s: State)
    requires Inv(s) && Marked(s.fs)
    ensures forall q | q in s.pcs :: !Creating(s.pcs[q])
  {
  }

  /** Once one process has returned the path, no later step of any process changes the checkout, and
      none is creating it. */
  lemma {:induction false} ReturnedIsFrozen(w: World, s: State, before: seq<(nat, Act)>, after: seq<(nat, Act)>, p: nat)
    requires Kind(w) && Init(w, s)
    requires p in Exec(w, s, before).pcs && Exec(w, s, before).pcs[p].Returned?
    ensures Exec(w, s, before + after).fs == Exec(w, s, before).fs
    ensures forall q | q in Exec(w, s, before + after).pcs :: !Creating(Exec(w, s, before + after).pcs[q])
  {
    ExecKeepsInv(w, s, before);
    ExecAppend(w, s, before, after);
    MarkedStays(w, Exec(w, s, before), after);
    ExecKeepsInv(w, s, before + after);
    NoneCreates(Exec(w, s, before + after));
  }

  lemma {:induction false} ExecSnoc(w: World, s: State, schedule: seq<(nat, Act)>, p: nat, a: Act)
    ensures Exec(w, s, schedule + [(p, a)]) == Step(w, Exec(w, s, schedule), p, a)
  {
    ExecAppend(w, s, schedule, [(p, a)]);
  }

  /** The promise holds of every run exactly when git status is honest about every unmarked and
      unfinished checkout, no git command outlives its process, and no process of another revision
      prunes meanwhile. */
  lemma {:induction false} SafeIff(w: World)
    ensures (forall s, schedule | Init(w, s) :: Safe(Exec(w, s, schedule))) <==> Kind(w)
  {
    if Kind(w) {
      forall s, schedule | Init(w, s) ensures Safe(Exec(w, s, schedule)) {
        AlwaysSafe(w, s, schedule);
      }
    } else if fs :| HasAdmin(fs) && !Marked(fs) && w.looks(fs) && !Complete(fs) {
      var s, schedule := HalfMadeIsAdopted(w, fs);
    } else if w.foreign {
      var s, run := ForeignPruneDeletes(w);
      ThawedIsUnsafe(w, s, run, DropAdmin(0));
    } else {
      var c :| c in w.survives;
      SurvivorIsUnsafe(w, c);
    }
  }

  lemma {:induction false} SurvivorIsUnsafe(w: World, c: Command)
    requires c in w.survives
    ensures exists s, schedule :: Init(w, s) && !Safe(Exec(w, s, schedule))
  {
    match c
    case Remove =>
      var s, run := SurvivingRemoveDeletes(w);
      ThawedIsUnsafe(w, s, run, DropFiles);
    case Add =>
      var s, run := SurvivingAddDeletes(w);
      ThawedIsUnsafe(w, s, run, DropFiles);
    case Prune =>
      var s, run := SurvivingPruneDeletes(w);
      ThawedIsUnsafe(w, s, run, DropAdmin(0));
  }

  lemma {:induction false} Next(w: World, s: State, schedule: seq<(nat, Act)>, p: nat, a: Act)
    returns (longer: seq<(nat, Act)>)
    ensures longer == schedule + [(p, a)]
    ensures Exec(w, s, longer) == Step(w, Exec(w, s, schedule), p, a)
  {
    longer := schedule + [(p, a)];
    ExecSnoc(w, s, schedule, p, a);
  }

  /** Process p is at a place under the lock, the others are where they were. */
  function Busy(fs: Files, others: map<nat, PC>, p: nat, pc: PC): State {
    State(fs, Some(p), others[p := pc])
  }

  function Free(fs: Files, others: map<nat, PC>, p: nat, pc: PC): State {
    State(fs, None, others[p := pc])
  }

  lemma {:induction false} Locks(w: World, s: State, schedule: seq<(nat, Act)>, fs: Files, others: map<nat, PC>, p: nat)
    returns (longer: seq<(nat, Act)>)
    requires Exec(w, s, schedule) == Free(fs, others, p, Outside)
    ensures Exec(w, s, longer) == Busy(fs, others, p, Testing)
  {
    longer := Next(w, s, schedule, p, Lock);
    assert others[p := Outside][p := Testing] == others[p := Testing];
  }

  lemma {:induction false} Works(w: World, s: State, schedule: seq<(nat, Act)>, fs: Files, others: map<nat, PC>,
                                 p: nat, pc: PC, a: Act)
    returns (longer: seq<(nat, Act)>)
    requires Exec(w, s, schedule) == Busy(fs, others, p, pc)
    requires Holds(pc) && !a.Lock? && !a.Unlock? && !a.Kill?
    requires Work(w.looks, fs, pc, a).Some?
    ensures var next := Work(w.looks, fs, pc, a).value;
            Exec(w, s, longer) == Busy(next.1, others, p, next.0)
  {
    longer := Next(w, s, schedule, p, a);
    var pc' := Work(w.looks, fs, pc, a).value.0;
    assert others[p := pc][p := pc'] == others[p := pc'];
  }

  lemma {:induction false} Returns(w: World, s: State, schedule: seq<(nat, Act)>, fs: Files, others: map<nat, PC>,
                                   p: nat)
    returns (longer: seq<(nat, Act)>)
    requires Exec(w, s, schedule) == Busy(fs, others, p, Leaving)
    ensures Exec(w, s, longer) == Free(fs, others, p, Returned)
  {
    longer := Next(w, s, schedule, p, Unlock);
    assert others[p := Leaving][p := Returned] == others[p := Returned];
  }

  lemma {:induction false} Dies(w: World, s: State, schedule: seq<(nat, Act)>, fs: Files, others: map<nat, PC>, p: nat,
                                pc: PC)
    returns (longer: seq<(nat, Act)>)
    requires Exec(w, s, schedule) == Busy(fs, others, p, pc)
    requires CommandOf(pc).Some? && CommandOf(pc).value in w.survives
    ensures Exec(w, s, longer) == Free(fs, others, p, Orphan(pc))
  {
    longer := Next(w, s, schedule, p, Kill(true));
    assert others[p := pc][p := Orphan(pc)] == others[p := Orphan(pc)];
  }

  /** A half-made checkout that looks clean is adopted. */
  lemma {:induction false} Adopts(w: World, s: State, fs: Files) returns (run: seq<(nat, Act)>)
    requires HasAdmin(fs) && !Marked(fs) && w.looks(fs) && s == Free(fs, map[], 1, Outside)
    ensures Exec(w, s, run) == Busy(fs.(admins := fs.admins[fs.gitfile.value := true]), map[], 1, Leaving)
  {
    var g := fs.gitfile.value;
    run := Locks(w, s, [], fs, map[], 1);
    run := Works(w, s, run, fs, map[], 1, Testing, ReadGitfile);
    run := Works(w, s, run, fs, map[], 1, Looking(g), LookUp);
    run := Works(w, s, run, fs, map[], 1, Asking(g), Status(true));
    run := Works(w, s, run, fs, map[], 1, Adopting(g), WriteMarker);
  }

  lemma {:induction false} ReturnedHalfMade(fs: Files)
    requires !Complete(fs)
    ensures !Safe(Free(fs, map[], 1, Returned))
  {
    assert Free(fs, map[], 1, Returned).pcs[1].Returned?;
  }

  /** It is returned, although it is not finished. */
  lemma {:induction false} HalfMadeIsAdopted(w: World, fs: Files) returns (s: State, schedule: seq<(nat, Act)>)
    requires HasAdmin(fs) && !Marked(fs) && w.looks(fs) && !Complete(fs)
    ensures Init(w, s) && !Safe(Exec(w, s, schedule))
  {
    s := Free(fs, map[], 1, Outside);
    schedule := Adopts(w, s, fs);
    var marked := fs.(admins := fs.admins[fs.gitfile.value := true]);
    schedule := Returns(w, s, schedule, marked, map[], 1);
    ReturnedHalfMade(marked);
  }

  /** What a new checkout with this administrative directory looks like before the marker. */
  function Made(fs: Files, id: nat): Files {
    Files(true, Some(id), fs.admins[id := false], true)
  }

  lemma {:induction false} ChecksOut(w: World, s: State, schedule: seq<(nat, Act)>, fs: Files, others: map<nat, PC>,
                                     p: nat, doomed: set<nat>, id: nat)
    returns (longer: seq<(nat, Act)>)
    requires Exec(w, s, schedule) == Busy(fs, others, p, Pruning(doomed)) && id !in fs.admins
    ensures Exec(w, s, longer) == Busy(Made(fs, id), others, p, Adding(Some(id)))
  {
    var entered := fs.(admins := fs.admins[id := false]);
    longer := Works(w, s, schedule, fs, others, p, Pruning(doomed), End(true));
    longer := Works(w, s, longer, fs, others, p, Adding(None), MakeAdmin(id));
    longer := Works(w, s, longer, entered, others, p, Adding(Some(id)), WriteGitfile);
    longer := Works(w, s, longer, Made(fs, id).(tree := false), others, p, Adding(Some(id)), CheckOut);
  }

  /** A process that has pruned makes a new checkout and returns it. */
  lemma {:induction false} MakesNew(w: World, s: State, schedule: seq<(nat, Act)>, fs: Files, others: map<nat, PC>,
                                    p: nat, doomed: set<nat>, id: nat)
    returns (longer: seq<(nat, Act)>, made: Files)
    requires Exec(w, s, schedule) == Busy(fs, others, p, Pruning(doomed)) && id !in fs.admins
    ensures Exec(w, s, longer) == Free(made, others, p, Returned) && Complete(made) && made.gitfile == Some(id)
  {
    made := Made(fs, id);
    longer := ChecksOut(w, s, schedule, fs, others, p, doomed, id);
    longer := Works(w, s, longer, made, others, p, Adding(Some(id)), End(true));
    longer := Works(w, s, longer, made, others, p, Marking, WriteMarker);
    made := made.(admins := made.admins[id := true]);
    longer := Returns(w, s, longer, made, others, p);
  }

  /** After the run a process has returned a finished checkout, and a command that is none of its own
      then deletes a part of it. */
  ghost predicate Thaws(w: World, s: State, run: seq<(nat, Act)>, a: Act) {
    var before, after := Exec(w, s, run), Exec(w, s, run + [(1, a)]);
    && 2 in before.pcs && before.pcs[2].Returned? && Complete(before.fs)
    && 2 in after.pcs && after.pcs[2].Returned? && !Complete(after.fs)
  }

  lemma {:induction false} ThawedIsUnsafe(w: World, s: State, run: seq<(nat, Act)>, a: Act)
    requires Init(w, s) && Thaws(w, s, run, a)
    ensures exists s, schedule :: Init(w, s) && !Safe(Exec(w, s, schedule))
  {
    var longer := run + [(1, a)];
    assert !Safe(Exec(w, s, longer));
  }

  lemma {:induction false} OrphanDeletes(w: World, s: State, run: seq<(nat, Act)>, fs: Files, command: PC, a: Act)
    requires Exec(w, s, run) == Free(fs, map[1 := Orphan(command)], 2, Returned) && Complete(fs)
    requires if command.Pruning? then a.DropAdmin? && fs.gitfile == Some(a.id) && a.id in command.doomed
             else (command.Removing? || command.Adding?) && a.DropFiles?
    ensures Thaws(w, s, run, a)
  {
    var longer := Next(w, s, run, 1, a);
  }

  const HALF := Files(true, Some(0), map[0 := false], false)

  const NOTHING := Files(false, None, map[], false)

  /** A process finds a half-made checkout and starts to remove it. */
  lemma {:induction false} StartsToRemove(w: World, s: State, schedule: seq<(nat, Act)>, others: map<nat, PC>, p: nat)
    returns (longer: seq<(nat, Act)>)
    requires Exec(w, s, schedule) == Free(HALF, others, p, Outside)
    ensures Exec(w, s, longer) == Busy(HALF, others, p, Removing)
  {
    longer := Locks(w, s, schedule, HALF, others, p);
    longer := Works(w, s, longer, HALF, others, p, Testing, ReadGitfile);
    longer := Works(w, s, longer, HALF, others, p, Looking(0), LookUp);
    longer := Works(w, s, longer, HALF, others, p, Asking(0), Status(false));
    longer := Works(w, s, longer, HALF, others, p, Deciding, TestExists);
  }

  const GONE := Files(false, None, map[0 := false], false)

  lemma {:induction false} Removes(w: World, s: State, schedule: seq<(nat, Act)>, others: map<nat, PC>, p: nat)
    returns (longer: seq<(nat, Act)>)
    requires Exec(w, s, schedule) == Busy(HALF, others, p, Removing)
    ensures Exec(w, s, longer) == Busy(GONE, others, p, Pruning({}))
  {
    longer := Works(w, s, schedule, HALF, others, p, Removing, DropDir);
    longer := Works(w, s, longer, GONE, others, p, Removing, End(true));
    longer := Works(w, s, longer, GONE, others, p, Rechecking, TestExists);
  }

  /** A process is killed while git worktree remove runs; the next one removes the rest, makes the
      checkout and returns it, and the first command deletes it. */
  lemma {:induction false} SurvivingRemoveDeletes(w: World) returns (s: State, run: seq<(nat, Act)>)
    requires Remove in w.survives
    ensures Init(w, s) && Thaws(w, s, run, DropFiles)
  {
    s := Free(HALF, map[2 := Outside], 1, Outside);
    run := StartsToRemove(w, s, [], map[2 := Outside], 1);
    run := Dies(w, s, run, HALF, map[2 := Outside], 1, Removing);
    var others := map[1 := Orphan(Removing)];
    assert map[2 := Outside][1 := Orphan(Removing)] == others[2 := Outside];
    run := StartsToRemove(w, s, run, others, 2);
    run := Removes(w, s, run, others, 2);
    var made;
    run, made := MakesNew(w, s, run, GONE, others, 2, {}, 1);
    OrphanDeletes(w, s, run, made, Removing, DropFiles);
  }

  /** A process finds nothing at the path and gets to the pruning. */
  lemma {:induction false} FindsNothing(w: World, s: State, schedule: seq<(nat, Act)>, fs: Files, others: map<nat, PC>,
                                        p: nat)
    returns (longer: seq<(nat, Act)>)
    requires Exec(w, s, schedule) == Free(fs, others, p, Outside) && !fs.present
    ensures Exec(w, s, longer) == Busy(fs, others, p, Pruning({}))
  {
    longer := Locks(w, s, schedule, fs, others, p);
    longer := Works(w, s, longer, fs, others, p, Testing, ReadGitfile);
    longer := Works(w, s, longer, fs, others, p, Deciding, TestExists);
  }

  /** The same with git worktree add, which deletes what it finds when it fails. */
  lemma {:induction false} SurvivingAddDeletes(w: World) returns (s: State, run: seq<(nat, Act)>)
    requires Add in w.survives
    ensures Init(w, s) && Thaws(w, s, run, DropFiles)
  {
    s := Free(NOTHING, map[2 := Outside], 1, Outside);
    run := FindsNothing(w, s, [], NOTHING, map[2 := Outside], 1);
    run := Works(w, s, run, NOTHING, map[2 := Outside], 1, Pruning({}), End(true));
    run := Dies(w, s, run, NOTHING, map[2 := Outside], 1, Adding(None));
    var others := map[1 := Orphan(Adding(None))];
    assert map[2 := Outside][1 := Orphan(Adding(None))] == others[2 := Outside];
    run := FindsNothing(w, s, run, NOTHING, others, 2);
    var made;
    run, made := MakesNew(w, s, run, NOTHING, others, 2, {}, 0);
    OrphanDeletes(w, s, run, made, Adding(None), DropFiles);
  }

  /** A prune has seen a stale entry; a process drops it, makes a new one of the same name and returns
      the checkout; then the first prune drops the entry it has seen. */
  lemma {:induction false} LatePruneDeletes(w: World, s: State, run: seq<(nat, Act)>) returns (longer: seq<(nat, Act)>)
    requires Exec(w, s, run) == Free(GONE, map[1 := Orphan(Pruning({0}))], 2, Outside)
    ensures Thaws(w, s, longer, DropAdmin(0))
  {
    var others := map[1 := Orphan(Pruning({0}))];
    longer := FindsNothing(w, s, run, GONE, others, 2);
    longer := Works(w, s, longer, GONE, others, 2, Pruning({}), Inspect(0));
    assert {} + {0} == {0};
    longer := Works(w, s, longer, GONE, others, 2, Pruning({0}), DropAdmin(0));
    assert Drop(GONE, DropAdmin(0)) == NOTHING;
    var made;
    longer, made := MakesNew(w, s, longer, NOTHING, others, 2, {0}, 0);
    OrphanDeletes(w, s, longer, made, Pruning({0}), DropAdmin(0));
  }

  lemma {:induction false} TwoProcesses(pc: PC)
    ensures map[2 := Outside][1 := pc] == map[1 := pc][2 := Outside]
  {
  }

  lemma {:induction false} SurvivingPruneDeletes(w: World) returns (s: State, run: seq<(nat, Act)>)
    requires Prune in w.survives
    ensures Init(w, s) && Thaws(w, s, run, DropAdmin(0))
  {
    s := Free(GONE, map[2 := Outside], 1, Outside);
    run := FindsNothing(w, s, [], GONE, map[2 := Outside], 1);
    run := Works(w, s, run, GONE, map[2 := Outside], 1, Pruning({}), Inspect(0));
    assert {} + {0} == {0};
    run := Dies(w, s, run, GONE, map[2 := Outside], 1, Pruning({0}));
    TwoProcesses(Orphan(Pruning({0})));
    run := LatePruneDeletes(w, s, run);
  }

  /** The prune of a process that serves another revision, and so holds another lock, does the same. */
  lemma {:induction false} ForeignPruneDeletes(w: World) returns (s: State, run: seq<(nat, Act)>)
    requires w.foreign
    ensures Init(w, s) && Thaws(w, s, run, DropAdmin(0))
  {
    s := Free(GONE, map[1 := Orphan(Pruning({}))], 2, Outside);
    run := Next(w, s, [], 1, Inspect(0));
    assert {} + {0} == {0};
    assert s.pcs[1 := Orphan(Pruning({0}))] == map[1 := Orphan(Pruning({0}))][2 := Outside];
    run := LatePruneDeletes(w, s, run);
  }

  // ---------------------------------------------------------------- one process as straight code

  /** A git command or deletion is running. */
  predicate Runs(pc: PC) {
    pc.Removing? || pc.Deleting? || pc.Pruning? || pc.Adding?
  }

  /** A small step of a running command; one that is not possible changes nothing. */
  function PartialStep(looks: Files -> bool, fs: Files, pc: PC, a: Act): (PC, Files) {
    if IsPartial(a) && Work(looks, fs, pc, a).Some? then Work(looks, fs, pc, a).value else (pc, fs)
  }

  function Partially(looks: Files -> bool, fs: Files, pc: PC, steps: seq<Act>): (PC, Files)
    decreases steps
  {
    if steps == [] then (pc, fs)
    else
      var (pc', fs') := PartialStep(looks, fs, pc, steps[0]);
      Partially(looks, fs', pc', steps[1..])
  }

  /** A deletion makes no administrative directory. */
  lemma {:induction false} DeletionsOnlyDelete(looks: Files -> bool, fs: Files, pc: PC, steps: seq<Act>)
    requires pc.Removing? || pc.Deleting? || pc.Pruning?
    ensures var after := Partially(looks, fs, pc, steps).0;
            after == pc || (pc.Pruning? && after.Pruning?)
    ensures Partially(looks, fs, pc, steps).1.admins.Keys <= fs.admins.Keys
    decreases steps
  {
    if steps != [] {
      var (pc', fs') := PartialStep(looks, fs, pc, steps[0]);
      DeletionsOnlyDelete(looks, fs', pc', steps[1..]);
    }
  }

  /** A removal or deletion that drops the path leaves nothing there. */
  lemma {:induction false} DroppedIsGone(looks: Files -> bool, fs: Files, pc: PC, steps: seq<Act>)
    requires (pc.Removing? || pc.Deleting?) && (DropDir in steps || !fs.present)
    ensures !Partially(looks, fs, pc, steps).1.present
    decreases steps
  {
    if steps != [] {
      var (pc', fs') := PartialStep(looks, fs, pc, steps[0]);
      DroppedIsGone(looks, fs', pc', steps[1..]);
    }
  }

  /** The command looks at the entry and drops it later. */
  predicate Prunes(steps: seq<Act>, id: nat) {
    exists i, j :: 0 <= i < j < |steps| && steps[i] == Inspect(id) && steps[j] == DropAdmin(id)
  }

  lemma {:induction false} PruneKeeps(looks: Files -> bool, fs: Files, doomed: set<nat>, steps: seq<Act>)
    ensures var after := Partially(looks, fs, Pruning(doomed), steps).1;
      after.gitfile == fs.gitfile && after.present == fs.present
    decreases steps
  {
    if steps != [] {
      var (pc', fs') := PartialStep(looks, fs, Pruning(doomed), steps[0]);
      PruneKeeps(looks, fs', pc'.doomed, steps[1..]);
    }
  }

  /** A prune takes away the stale entries that it looks at and drops. */
  lemma {:induction false} PrunedIsGone(looks: Files -> bool, fs: Files, doomed: set<nat>, steps: seq<Act>, id: nat)
    requires fs.gitfile != Some(id)
    ensures Prunes(steps, id) || (id in doomed && DropAdmin(id) in steps) || id !in fs.admins ==>
      id !in Partially(looks, fs, Pruning(doomed), steps).1.admins
    decreases steps
  {
    if steps != [] {
      var (pc', fs') := PartialStep(looks, fs, Pruning(doomed), steps[0]);
      PrunedIsGone(looks, fs', pc'.doomed, steps[1..], id);
      if i, j :| 0 <= i < j < |steps| && steps[i] == Inspect(id) && steps[j] == DropAdmin(id) {
        assert steps[1..][j - 1] == DropAdmin(id);
        assert i > 0 ==> steps[1..][i - 1] == Inspect(id);
      }
    }
  }

  lemma {:induction false} AddingStaysAdding(looks: Files -> bool, fs: Files, pc: PC, steps: seq<Act>)
    requires pc.Adding?
    ensures Partially(looks, fs, pc, steps).0.Adding?
    decreases steps
  {
    if steps != [] {
      var (pc', fs') := PartialStep(looks, fs, pc, steps[0]);
      AddingStaysAdding(looks, fs', pc', steps[1..]);
    }
  }

  /** What git worktree add does when nothing stops it. */
  function FullCheckout(id: nat): seq<Act> {
    [MakeAdmin(id), WriteGitfile, CheckOut]
  }

  lemma {:induction false} FullCheckoutCompletes(looks: Files -> bool, fs: Files, id: nat)
    requires id !in fs.admins
    ensures var (pc, fs') := Partially(looks, fs, Adding(None), FullCheckout(id));
            pc == Adding(Some(id)) && fs'.gitfile == Some(id) && Complete(fs')
  {
    var made := fs.(admins := fs.admins[id := false]);
    var named := made.(present := true, gitfile := Some(id), tree := false);
    assert FullCheckout(id)[1..] == [WriteGitfile, CheckOut];
    assert [WriteGitfile, CheckOut][1..] == [CheckOut];
    assert [CheckOut][1..] == [];
    assert Partially(looks, named, Adding(Some(id)), [CheckOut]).1 == named.(tree := true);
    assert Partially(looks, made, Adding(Some(id)), [WriteGitfile, CheckOut])
      == Partially(looks, named, Adding(Some(id)), [CheckOut]);
  }

  /** What the commands will do: the answer of git status, the small steps of each command, and
      whether the checkout reports success. */
  datatype Git = Git(clean: bool, remove: seq<Act>, delete: seq<Act>, prune: seq<Act>, add: seq<Act>, id: nat, ok: bool)

  class Host {
    const world: World
    var state: State
    ghost var start: State
    ghost var trace: seq<(nat, Act)>

    /** The state was reached from the start by the recorded steps of the protocol. */
    ghost predicate Valid()
      reads this
    {
      HonestStatus(world.looks) && state == Exec(world, start, trace)
    }

    constructor (w: World, s: State)
      requires HonestStatus(w.looks)
      ensures Valid() && world == w && state == s
    {
      world, state, start, trace := w, s, s, [];
    }

    method Do(p: nat, a: Act)
      requires Valid()
      modifies this
      ensures Valid() && start == old(start) && old(trace) <= trace
      ensures state == Step(world, old(state), p, a)
    {
      ExecSnoc(world, start, trace, p, a);
      state, trace := Step(world, state, p, a), trace + [(p, a)];
    }

    /** A step under the lock. */
    method Go(p: nat, a: Act)
      requires Valid() && p in state.pcs && Holds(state.pcs[p])
      requires !a.Lock? && !a.Unlock? && !a.Kill?
      modifies this
      ensures Valid() && start == old(start) && old(trace) <= trace
      ensures var w := Work(world.looks, old(state).fs, old(state).pcs[p], a);
              if w.None? then state == old(state)
              else state == old(state).(fs := w.value.1, pcs := old(state).pcs[p := w.value.0])
    {
      Do(p, a);
    }

    method GoPartially(p: nat, a: Act)
      requires Valid() && p in state.pcs && Runs(state.pcs[p])
      modifies this
      ensures Valid() && start == old(start) && old(trace) <= trace
      ensures var (pc, fs) := PartialStep(world.looks, old(state).fs, old(state).pcs[p], a);
              Runs(pc) && state == State(fs, old(state).lock, old(state).pcs[p := pc])
    {
      if IsPartial(a) {
        Go(p, a);
      }
    }

    /** The small steps of a command, up to its end. */
    method RunCommand(p: nat, steps: seq<Act>)
      requires Valid() && p in state.pcs && Runs(state.pcs[p])
      modifies this
      ensures Valid() && start == old(start) && old(trace) <= trace
      ensures var (pc, fs) := Partially(world.looks, old(state.fs), old(state.pcs)[p], steps);
              Runs(pc) && state == State(fs, old(state.lock), old(state.pcs)[p := pc])
    {
      for i := 0 to |steps|
        invariant Valid() && start == old(start) && old(trace) <= trace
        invariant state.lock == old(state.lock)
        invariant p in state.pcs && Runs(state.pcs[p]) && state.pcs == old(state.pcs)[p := state.pcs[p]]
        invariant Partially(world.looks, old(state.fs), old(state.pcs)[p], steps)
               == Partially(world.looks, state.fs, state.pcs[p], steps[i..])
      {
        assert steps[i..][1..] == steps[i + 1..];
        GoPartially(p, steps[i]);
      }
    }

    /** _ready, for the holder of the lock: the path is marked, or adopted and marked now. */
    method Ready(p: nat, clean: bool) returns (ready: bool)
      requires Valid() && p in state.pcs && state.pcs[p].Testing?
      modifies this
      ensures Valid() && start == old(start) && old(trace) <= trace
      ensures state.pcs == old(state.pcs)[p := if ready then Leaving else Deciding]
      ensures state.lock == old(state.lock)
      ensures ready <==> Marked(old(state.fs)) || (Complete(old(state.fs)) && clean && world.looks(old(state.fs)))
      ensures ready ==> Marked(state.fs) && (Complete(old(state.fs)) ==> Complete(state.fs))
      ensures !ready || Marked(old(state.fs)) ==> state.fs == old(state.fs)
    {
      Go(p, ReadGitfile);
      if state.pcs[p].Deciding? {
        return false;
      }
      Go(p, LookUp);
      if state.pcs[p].Deciding? {
        return false;
      }
      if state.pcs[p].Leaving? {
        return true;
      }
      Go(p, Status(clean));
      if state.pcs[p].Deciding? {
        return false;
      }
      Go(p, WriteMarker);
      return true;
    }

    /** A whole command of the deletion phase; its errors are ignored. */
    method RunDeletion(p: nat, steps: seq<Act>)
      requires Valid() && p in state.pcs
      requires state.pcs[p].Removing? || state.pcs[p].Deleting? || state.pcs[p].Pruning?
      modifies this
      ensures Valid() && start == old(start) && old(trace) <= trace
      ensures state.lock == old(state.lock)
      ensures state.pcs == old(state.pcs)[p := if old(state.pcs)[p].Removing? then Rechecking
                                               else if old(state.pcs)[p].Deleting? then Pruning({}) else Adding(None)]
      ensures state.fs == Partially(world.looks, old(state).fs, old(state).pcs[p], steps).1
      ensures state.fs.admins.Keys <= old(state.fs).admins.Keys
    {
      DeletionsOnlyDelete(world.looks, state.fs, state.pcs[p], steps);
      RunCommand(p, steps);
      Go(p, End(true));
    }

    method SeeIfPresent(p: nat) returns (there: bool)
      requires Valid() && p in state.pcs && (state.pcs[p].Deciding? || state.pcs[p].Rechecking?)
      modifies this
      ensures Valid() && start == old(start) && old(trace) <= trace
      ensures state.lock == old(state.lock)
      ensures there == old(state.fs).present && state.fs == old(state.fs)
      ensures state.pcs == old(state.pcs)[p := if !there then Pruning({})
                                               else if old(state.pcs)[p].Deciding? then Removing else Deleting]
    {
      there := state.fs.present;
      Go(p, TestExists);
    }

    /** Deletes what is left of a half-made checkout: the path is gone if git or the recursive deletion
        drops it, and every stale entry that git prunes is gone. */
    method CleanUp(p: nat, git: Git)
      requires Valid() && p in state.pcs && state.pcs[p].Deciding?
      modifies this
      ensures Valid() && start == old(start) && old(trace) <= trace
      ensures state.pcs == old(state.pcs)[p := Adding(None)] && state.lock == old(state.lock)
      ensures state.fs.admins.Keys <= old(state.fs).admins.Keys
      ensures DropDir in git.remove || DropDir in git.delete ==> !state.fs.present
      ensures forall id: nat | Prunes(git.prune, id) && state.fs.gitfile != Some(id) :: id !in state.fs.admins
    {
      RemovePath(p, git);
      ghost var before := state.fs;
      RunDeletion(p, git.prune);
      PruneKeeps(world.looks, before, {}, git.prune);
      forall id: nat | before.gitfile != Some(id) {
        PrunedIsGone(world.looks, before, {}, git.prune, id);
      }
    }

    /** git worktree remove and, if the path is still there, the recursive deletion. */
    method RemovePath(p: nat, git: Git)
      requires Valid() && p in state.pcs && state.pcs[p].Deciding?
      modifies this
      ensures Valid() && start == old(start) && old(trace) <= trace
      ensures state.pcs == old(state.pcs)[p := Pruning({})] && state.lock == old(state.lock)
      ensures state.fs.admins.Keys <= old(state.fs).admins.Keys
      ensures DropDir in git.remove || DropDir in git.delete ==> !state.fs.present
    {
      var there := SeeIfPresent(p);
      if there {
        ghost var before := state.fs;
        RunDeletion(p, git.remove);
        if DropDir in git.remove {
          DroppedIsGone(world.looks, before, Removing, git.remove);
        }
        there := SeeIfPresent(p);
        if there {
          ghost var left := state.fs;
          RunDeletion(p, git.delete);
          if DropDir in git.delete {
            DroppedIsGone(world.looks, left, Deleting, git.delete);
          }
        }
      }
    }

    /** git worktree add and the marker; a failure of git is raised. */
    method Create(p: nat, git: Git) returns (ok: bool)
      requires Valid() && p in state.pcs && state.pcs[p] == Adding(None)
      modifies this
      ensures Valid() && start == old(start) && old(trace) <= trace
      ensures state.pcs == old(state.pcs)[p := if ok then Leaving else Raising] && state.lock == old(state.lock)
      ensures ok ==> Complete(state.fs) && Marked(state.fs)
      ensures git.ok && git.id !in old(state.fs).admins && git.add == FullCheckout(git.id) ==> ok
    {
      AddingStaysAdding(world.looks, state.fs, state.pcs[p], git.add);
      if git.id !in state.fs.admins {
        FullCheckoutCompletes(world.looks, state.fs, git.id);
      }
      RunCommand(p, git.add);
      ok := git.ok && WorkAdd(state.fs, state.pcs[p], End(true)).Some?;
      FinishAdding(p, ok);
    }

    method FinishAdding(p: nat, ok: bool)
      requires Valid() && p in state.pcs && state.pcs[p].Adding?
      requires ok ==> WorkAdd(state.fs, state.pcs[p], End(true)).Some?
      modifies this
      ensures Valid() && start == old(start) && old(trace) <= trace
      ensures state.pcs == old(state.pcs)[p := if ok then Leaving else Raising] && state.lock == old(state.lock)
      ensures ok ==> Complete(state.fs) && Marked(state.fs)
    {
      Go(p, End(ok));
      if ok {
        Go(p, WriteMarker);
      }
    }

    /** worktree, for a process that finds the lock free: its steps are steps of the interleaved
        protocol, it always gives the lock back, it returns the path only for a finished and
        marked checkout, a path that was ready is handed out untouched, and from any half-made
        files it succeeds when the new checkout itself goes through. */
    method Worktree(p: nat, git: Git) returns (ok: bool)
      requires Valid() && p in state.pcs && state.pcs[p].Outside? && state.lock.None?
      requires Marked(state.fs) ==> Complete(state.fs)
      modifies this
      ensures Valid() && start == old(start) && old(trace) <= trace
      ensures state.lock.None? && state.pcs == old(state.pcs)[p := if ok then Returned else Failed]
      ensures ok ==> Complete(state.fs) && Marked(state.fs)
      ensures Marked(old(state.fs)) ==> ok && state.fs == old(state.fs)
      ensures git.ok && git.id !in old(state.fs).admins && git.add == FullCheckout(git.id) ==> ok
    {
      Do(p, Lock);
      ok := Ready(p, git.clean);
      if !ok {
        CleanUp(p, git);
        ok := Create(p, git);
      }
      Do(p, Unlock);
    }
  }
}
