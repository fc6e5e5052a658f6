/**
  The tree of the cache over whole runs: clients and the server change entries, directories are
  listed, files are made and removed, and syncs happen, in any order.
 */
module ZxcTree {
  import opened Zxc
  import Mblk

  /** An entry in a listing of the server. */
  datatype News = News(name: string, isdir: bool, size: nat, d: Attrs)

  /** What happens at a node of the tree: to its entry, or to the list of its children. */
  datatype NodeOp =
    | OnEntry(op: Op)
    | Listed(stats: bool, ds: seq<News>)   // the list of children is needed; ds is what the server has
    | Create(f: File)                      // a client makes a child
    | Forget(name: string)                 // a walk finds that a child is gone

  // ----- children -----

  function Names(ks: seq<Tree>): set<string>
  {
    if ks == [] then {} else {ks[0].f.name} + Names(ks[1..])
  }

  /** The node after op happens to its entry: one that is gone, or of another type, has no children. */
  function EntryStep(t: Tree, op: Op): Tree
  {
    if op.OpRemove? then Deleted(t)
    else Tree(Step(t.f, op), if op.OpGone? || OtherType(t.f, op) then [] else t.kids)
  }

  /** The children once a listing has one of them. */
  function Heard(ks: seq<Tree>, n: News): seq<Tree>
  {
    if n.name == ".zx" then ks
    else if ks == [] then [Tree(File(n.name, n.isdir, n.size, n.d, map[], New, []), [])]
    else if ks[0].f.name == n.name then [EntryStep(ks[0], OpMeta(n.isdir, n.size, n.d))] + ks[1..]
    else [ks[0]] + Heard(ks[1..], n)
  }

  function HeardAll(ks: seq<Tree>, ds: seq<News>): seq<Tree>
    decreases |ds|
  {
    if ds == [] then ks else HeardAll(Heard(ks, ds[0]), ds[1..])
  }

  predicate IsListed(name: string, ds: seq<News>)
  {
    name != ".zx" && exists n | n in ds :: n.name == name
  }

  /** Children the server does not have are dropped, unless they are to be sent. */
  function Unlisted(ks: seq<Tree>, ds: seq<News>): seq<Tree>
  {
    if ks == [] then []
    else
      var keep := IsListed(ks[0].f.name, ds) || ks[0].f.sts == Data || ks[0].f.sts == Gone;
      (if keep then [ks[0]] else []) + Unlisted(ks[1..], ds)
  }

  /** A new file takes the place of one with its name. */
  function Created(ks: seq<Tree>, f: File): seq<Tree>
  {
    if ks == [] then [Tree(f.(sts := Data), [])]
    else if ks[0].f.name == f.name then [Tree(f.(sts := Data), [])] + ks[1..]
    else [ks[0]] + Created(ks[1..], f)
  }

  function Forgotten(ks: seq<Tree>, name: string): seq<Tree>
  {
    if ks == [] then []
    else if ks[0].f.name == name && ks[0].f.sts == Gone then ks[1..]
    else [ks[0]] + Forgotten(ks[1..], name)
  }

  // ----- the tree -----

  function NodeStep(t: Tree, op: NodeOp): Tree
  {
    match op
    case OnEntry(o) => EntryStep(t, o)
    case Listed(stats, ds) =>
      if DataOk(t.f, stats) then t else Tree(Fetched(t.f, stats, []), Unlisted(HeardAll(t.kids, ds), ds))
    case Create(f) => Tree(t.f, Created(t.kids, f))
    case Forget(name) => Tree(t.f, Forgotten(t.kids, name))
  }

  /** The tree after op happens at rel, if there is something there. */
  function StepAt(t: Tree, rel: Path, op: NodeOp): Tree
  {
    if rel == [] then NodeStep(t, op) else Tree(t.f, StepIn(t.kids, rel, op))
  }

  function StepIn(ks: seq<Tree>, rel: Path, op: NodeOp): seq<Tree>
    requires rel != []
  {
    if ks == [] then []
    else if ks[0].f.name == rel[0] then [StepAt(ks[0], rel[1..], op)] + ks[1..]
    else [ks[0]] + StepIn(ks[1..], rel, op)
  }

  datatype TreeOp = There(rel: Path, op: NodeOp) | InvalTree | SyncTree

  function TreeStep(t: Tree, op: TreeOp): Tree
  {
    match op
    case There(rel, o) => StepAt(t, rel, o)
    case InvalTree => InvalAll(t)
    case SyncTree => Synced(t)
  }

  function TreeRun(t: Tree, ops: seq<TreeOp>): Tree
    decreases |ops|
  {
    if ops == [] then t else TreeRun(TreeStep(t, ops[0]), ops[1..])
  }

  // ----- what every run keeps -----

  predicate NoChildren(f: File, ks: seq<Tree>)
  {
    (f.name == ".zx" ==> ks == []) && (f.sts == Gone ==> forall k | k in ks :: AllSettled(k))
  }

  /** Children have names of their own, what is gone has nothing to send below it, and a control file has no children. */
  predicate Sound(t: Tree)
  {
    NoChildren(t.f, t.kids) && DistinctNames(t.kids) && forall k | k in t.kids :: Sound(k)
  }

  predicate AllSound(ks: seq<Tree>)
  {
    DistinctNames(ks) && forall k | k in ks :: Sound(k)
  }

  /** No file is made in a directory that is gone, and nothing happens below one. */
  predicate Calm(t: Tree, rel: Path, op: NodeOp)
  {
    if rel == [] then op.Create? ==> t.f.sts != Gone && t.f.name != ".zx"
    else t.f.sts != Gone && forall k | k in t.kids && k.f.name == rel[0] :: Calm(k, rel[1..], op)
  }

  lemma {:induction false} SoundUnique(t: Tree)
    requires Sound(t)
    ensures Unique(t)
    decreases t
  {
    forall k | k in t.kids ensures Unique(k) { SoundUnique(k); }
  }

  lemma {:induction false} SoundReachable(t: Tree)
    requires Sound(t)
    ensures Reachable(t)
    decreases t
  {
    forall k | k in t.kids ensures Reachable(k) { SoundReachable(k); }
    forall k | k in t.kids && k.f.sts == Gone ensures AllSettled(k) { assert Sound(k); }
  }

  lemma {:induction false} NamesAre(ks: seq<Tree>, name: string)
    ensures name in Names(ks) <==> exists k | k in ks :: k.f.name == name
    decreases ks
  {
    if ks != [] {
      NamesAre(ks[1..], name);
      assert forall k | k in ks :: k == ks[0] || k in ks[1..];
      assert ks[0] in ks && forall k | k in ks[1..] :: k in ks;
    }
  }

  lemma {:induction false} DistinctCons(k: Tree, rest: seq<Tree>)
    ensures DistinctNames([k] + rest) <==> DistinctNames(rest) && forall j | j in rest :: j.f.name != k.f.name
  {
    var ks := [k] + rest;
    assert ks[0] == k && forall i | 0 <= i < |rest| :: ks[i + 1] == rest[i];
    if DistinctNames(ks) {
      forall i, j | 0 <= i < j < |rest| ensures rest[i].f.name != rest[j].f.name {
        assert ks[i + 1].f.name != ks[j + 1].f.name;
      }
      forall j | j in rest ensures j.f.name != k.f.name {
        var i :| 0 <= i < |rest| && rest[i] == j;
        assert ks[0].f.name != ks[i + 1].f.name;
      }
    }
    if DistinctNames(rest) && forall j | j in rest :: j.f.name != k.f.name {
      forall i, j | 0 <= i < j < |ks| ensures ks[i].f.name != ks[j].f.name {
        assert ks[j] == rest[j - 1] && rest[j - 1] in rest;
        if i > 0 { assert rest[i - 1].f.name != rest[j - 1].f.name; }
      }
    }
  }

  lemma {:induction false} SoundCons(k: Tree, rest: seq<Tree>)
    ensures AllSound([k] + rest) <==> Sound(k) && AllSound(rest) && k.f.name !in Names(rest)
  {
    hide Sound, DistinctNames, Names;
    DistinctCons(k, rest);
    NamesAre(rest, k.f.name);
    assert forall j | j in [k] + rest :: j == k || j in rest;
    assert k in [k] + rest && forall j | j in rest :: j in [k] + rest;
  }

  lemma {:induction false} SoundSplit(ks: seq<Tree>)
    requires ks != []
    ensures AllSound(ks) <==> Sound(ks[0]) && AllSound(ks[1..]) && ks[0].f.name !in Names(ks[1..])
  {
    assert [ks[0]] + ks[1..] == ks;
    SoundCons(ks[0], ks[1..]);
  }

  lemma {:induction false} DeletedSound(t: Tree)
    requires Sound(t)
    ensures Sound(Deleted(t)) && Deleted(t).f.name == t.f.name
    decreases t, 0
  {
    DeletedAllSound(t.kids);
  }

  lemma {:induction false} DeletedAllSound(ks: seq<Tree>)
    requires AllSound(ks)
    ensures AllSound(DeletedKids(ks)) && Names(DeletedKids(ks)) == Names(ks)
    decreases ks, 1
  {
    if ks != [] {
      SoundSplit(ks);
      DeletedSound(ks[0]);
      DeletedAllSound(ks[1..]);
      SoundCons(Deleted(ks[0]), DeletedKids(ks[1..]));
    }
  }

  lemma {:induction false} InvalSound(t: Tree)
    requires Sound(t)
    ensures Sound(InvalAll(t)) && InvalAll(t).f.name == t.f.name
    decreases t, 0
  {
    InvalAllSound(t.kids);
  }

  lemma {:induction false} InvalAllSound(ks: seq<Tree>)
    requires AllSound(ks)
    ensures AllSound(InvalKids(ks)) && Names(InvalKids(ks)) == Names(ks)
    decreases ks, 1
  {
    if ks != [] {
      SoundSplit(ks);
      InvalSound(ks[0]);
      InvalAllSound(ks[1..]);
      SoundCons(InvalAll(ks[0]), InvalKids(ks[1..]));
    }
  }

  lemma StepStays(f: File, op: Op)
    ensures Step(f, op).name == f.name
    ensures Step(f, op).sts == Gone ==> f.sts == Gone || op.OpGone?
  {
    hide Changes, Mblk.Received, Attr;
  }

  lemma {:induction false} EntrySound(t: Tree, op: Op)
    requires Sound(t)
    ensures Sound(EntryStep(t, op)) && EntryStep(t, op).f.name == t.f.name
  {
    StepStays(t.f, op);
    if op.OpRemove? { DeletedSound(t); }
  }

  lemma {:induction false} HeardSound(ks: seq<Tree>, n: News)
    requires AllSound(ks)
    ensures AllSound(Heard(ks, n)) && Names(Heard(ks, n)) <= Names(ks) + {n.name}
    decreases ks
  {
    if ks == [] || n.name == ".zx" {
    } else {
      SoundSplit(ks);
      var k := EntryStep(ks[0], OpMeta(n.isdir, n.size, n.d));
      if ks[0].f.name == n.name {
        EntrySound(ks[0], OpMeta(n.isdir, n.size, n.d));
        SoundCons(k, ks[1..]);
      } else {
        HeardSound(ks[1..], n);
        SoundCons(ks[0], Heard(ks[1..], n));
      }
    }
  }

  lemma {:induction false} HeardAllSound(ks: seq<Tree>, ds: seq<News>)
    requires AllSound(ks)
    ensures AllSound(HeardAll(ks, ds))
    decreases |ds|
  {
    if ds != [] {
      HeardSound(ks, ds[0]);
      HeardAllSound(Heard(ks, ds[0]), ds[1..]);
    }
  }

  lemma {:induction false} UnlistedSound(ks: seq<Tree>, ds: seq<News>)
    requires AllSound(ks)
    ensures AllSound(Unlisted(ks, ds)) && Names(Unlisted(ks, ds)) <= Names(ks)
    decreases ks
  {
    if ks != [] {
      SoundSplit(ks);
      UnlistedSound(ks[1..], ds);
      SoundCons(ks[0], Unlisted(ks[1..], ds));
      assert [] + Unlisted(ks[1..], ds) == Unlisted(ks[1..], ds);
    }
  }

  lemma {:induction false} CreatedSound(ks: seq<Tree>, f: File)
    requires AllSound(ks)
    ensures AllSound(Created(ks, f)) && Names(Created(ks, f)) <= Names(ks) + {f.name}
    decreases ks
  {
    if ks != [] {
      SoundSplit(ks);
      if ks[0].f.name == f.name {
        SoundCons(Tree(f.(sts := Data), []), ks[1..]);
      } else {
        CreatedSound(ks[1..], f);
        SoundCons(ks[0], Created(ks[1..], f));
      }
    }
  }

  lemma {:induction false} ForgottenSound(ks: seq<Tree>, name: string)
    requires AllSound(ks)
    ensures AllSound(Forgotten(ks, name)) && Names(Forgotten(ks, name)) <= Names(ks)
    ensures forall k | k in Forgotten(ks, name) :: k in ks
    decreases ks
  {
    if ks != [] {
      SoundSplit(ks);
      ForgottenSound(ks[1..], name);
      SoundCons(ks[0], Forgotten(ks[1..], name));
    }
  }

  lemma {:induction false} NodeSound(t: Tree, op: NodeOp)
    requires Sound(t) && (op.Create? ==> t.f.sts != Gone && t.f.name != ".zx")
    ensures Sound(NodeStep(t, op)) && NodeStep(t, op).f.name == t.f.name
  {
    match op
    case OnEntry(o) => EntrySound(t, o);
    case Listed(stats, ds) =>
      HeardAllSound(t.kids, ds);
      UnlistedSound(HeardAll(t.kids, ds), ds);
    case Create(f) => CreatedSound(t.kids, f);
    case Forget(name) => ForgottenSound(t.kids, name);
  }

  lemma {:induction false} StepSound(t: Tree, rel: Path, op: NodeOp)
    requires Sound(t) && Calm(t, rel, op)
    ensures Sound(StepAt(t, rel, op)) && StepAt(t, rel, op).f.name == t.f.name
    decreases t, 0
  {
    if rel == [] {
      NodeSound(t, op);
    } else {
      StepInSound(t.kids, rel, op);
    }
  }

  lemma {:induction false} StepInSound(ks: seq<Tree>, rel: Path, op: NodeOp)
    requires AllSound(ks) && rel != [] && forall k | k in ks && k.f.name == rel[0] :: Calm(k, rel[1..], op)
    ensures AllSound(StepIn(ks, rel, op)) && Names(StepIn(ks, rel, op)) == Names(ks)
    ensures ks == [] ==> StepIn(ks, rel, op) == []
    decreases ks, 1
  {
    if ks != [] {
      SoundSplit(ks);
      assert ks[0] in ks;
      if ks[0].f.name == rel[0] {
        StepSound(ks[0], rel[1..], op);
        SoundCons(StepAt(ks[0], rel[1..], op), ks[1..]);
      } else {
        StepInSound(ks[1..], rel, op);
        SoundCons(ks[0], StepIn(ks[1..], rel, op));
      }
    }
  }

  lemma {:induction false} SyncSound(t: Tree)
    requires Sound(t)
    ensures Sound(Synced(t)) && Synced(t).f.name == t.f.name
    decreases t, 0
  {
    SyncAllSound(KidsPass(t.f), t.kids);
    SoundReachable(t);
    SyncSettles(t);
  }

  lemma {:induction false} SyncAllSound(pass: Pass, ks: seq<Tree>)
    requires AllSound(ks)
    ensures AllSound(SyncedAll(pass, ks)) && Names(SyncedAll(pass, ks)) == Names(ks)
    decreases ks, 1
  {
    if ks != [] {
      SoundSplit(ks);
      SyncSound(ks[0]);
      SyncAllSound(pass, ks[1..]);
      SoundCons(if InPass(pass, ks[0].f) then Synced(ks[0]) else ks[0], SyncedAll(pass, ks[1..]));
    }
  }

  predicate CalmStep(t: Tree, op: TreeOp)
  {
    op.There? ==> Calm(t, op.rel, op.op)
  }

  lemma {:induction false} TreeStepSound(t: Tree, op: TreeOp)
    requires Sound(t) && CalmStep(t, op)
    ensures Sound(TreeStep(t, op))
  {
    match op
    case There(rel, o) => StepSound(t, rel, o);
    case InvalTree => InvalSound(t);
    case SyncTree => SyncSound(t);
  }

  /** A run in which nothing happens below a directory that is gone. */
  predicate CalmRun(t: Tree, ops: seq<TreeOp>)
    decreases |ops|
  {
    ops == [] || (CalmStep(t, ops[0]) && CalmRun(TreeStep(t, ops[0]), ops[1..]))
  }

  /** After any such run, whatever it did, a sync that does not fail leaves nothing to be sent. */
  lemma {:induction false} RunSettles(t: Tree, ops: seq<TreeOp>)
    requires Sound(t) && CalmRun(t, ops)
    ensures Sound(TreeRun(t, ops)) && AllSettled(Synced(TreeRun(t, ops)))
    decreases |ops|
  {
    if ops == [] {
      SoundReachable(t);
      SyncSettles(t);
    } else {
      TreeStepSound(t, ops[0]);
      RunSettles(TreeStep(t, ops[0]), ops[1..]);
    }
  }

  // ----- what happens below a directory that is gone -----

  /** The node at rel. */
  function NodeAt(t: Tree, rel: Path): Option<Tree>
  {
    if rel == [] then Some(t) else NodeIn(t.kids, rel)
  }

  function NodeIn(ks: seq<Tree>, rel: Path): Option<Tree>
    requires rel != []
  {
    if ks == [] then None
    else if ks[0].f.name == rel[0] then NodeAt(ks[0], rel[1..])
    else NodeIn(ks[1..], rel)
  }

  /** There is something at rel, and op leaves it to be sent. */
  predicate Unsettles(t: Tree, rel: Path, op: Op)
  {
    NodeAt(t, rel).Some? && !IsSettled(EntryStep(NodeAt(t, rel).value, op).f)
  }

  predicate UnsettlesIn(ks: seq<Tree>, rel: Path, op: Op)
    requires rel != []
  {
    NodeIn(ks, rel).Some? && !IsSettled(EntryStep(NodeIn(ks, rel).value, op).f)
  }

  lemma {:induction false} StaysUnsettled(t: Tree, rel: Path, op: Op)
    requires Unsettles(t, rel, op)
    ensures !AllSettled(StepAt(t, rel, OnEntry(op)))
    decreases t, 0
  {
    if rel != [] { StaysUnsettledIn(t.kids, rel, op); }
  }

  lemma {:induction false} StaysUnsettledIn(ks: seq<Tree>, rel: Path, op: Op)
    requires rel != [] && UnsettlesIn(ks, rel, op)
    ensures exists k | k in StepIn(ks, rel, OnEntry(op)) :: !AllSettled(k)
    decreases ks, 1
  {
    var r := StepIn(ks, rel, OnEntry(op));
    if ks[0].f.name == rel[0] {
      StaysUnsettled(ks[0], rel[1..], op);
      assert r[0] in r;
    } else {
      StaysUnsettledIn(ks[1..], rel, op);
      var k :| k in StepIn(ks[1..], rel, OnEntry(op)) && !AllSettled(k);
      assert k in r;
    }
  }

  /** A sync of t goes to the node at rel, and to those of its children that are not gone. */
  predicate Goes(t: Tree, rel: Path)
  {
    Entry(t, rel).Some?
  }

  /**
    Clients do not hold a directory while they write to a file in it, or set its size. What
    leaves something to be sent, when the directory may have been removed, leaves nothing
    behind at the next sync exactly when that sync goes to the directory.
   */
  lemma {:induction false} LateStep(t: Tree, rel: Path, op: Op)
    requires Sound(t) && rel != [] && Unsettles(t, rel, op)
    ensures AllSettled(Synced(StepAt(t, rel, OnEntry(op)))) <==> Goes(t, rel[..|rel| - 1])
  {
    SyncSettles(StepAt(t, rel, OnEntry(op)));
    StepReached(t, rel, op);
  }

  lemma {:induction false} StepReached(t: Tree, rel: Path, op: Op)
    requires Sound(t) && rel != [] && Unsettles(t, rel, op)
    ensures Reachable(StepAt(t, rel, OnEntry(op))) <==> Goes(t, rel[..|rel| - 1])
    decreases t, 0
  {
    StepReachedIn(KidsPass(t.f), t.kids, rel, op);
  }

  /** What a sync in this pass needs of some children, to leave nothing behind. */
  predicate InReach(pass: Pass, ks: seq<Tree>)
  {
    forall k | k in ks :: ReachedKid(pass, k)
  }

  predicate ReachedKid(pass: Pass, k: Tree)
  {
    if InPass(pass, k.f) then Reachable(k) else AllSettled(k)
  }

  lemma InReachCons(pass: Pass, k: Tree, rest: seq<Tree>)
    ensures InReach(pass, [k] + rest) <==> ReachedKid(pass, k) && InReach(pass, rest)
  {
    hide ReachedKid;
    assert forall j | j in [k] + rest :: j == k || j in rest;
    assert k in [k] + rest && forall j | j in rest :: j in [k] + rest;
  }

  lemma {:induction false} SoundReached(pass: Pass, k: Tree)
    requires Sound(k) && (pass.Live? || pass.Every?)
    ensures ReachedKid(pass, k)
  {
    SoundReachable(k);
  }

  lemma {:induction false} AllSoundReached(pass: Pass, ks: seq<Tree>)
    requires AllSound(ks) && (pass.Live? || pass.Every?)
    ensures InReach(pass, ks)
  {
    hide ReachedKid, Sound;
    forall k | k in ks ensures ReachedKid(pass, k) { SoundReached(pass, k); }
  }

  lemma {:induction false} StepReachedIn(pass: Pass, ks: seq<Tree>, rel: Path, op: Op)
    requires AllSound(ks) && (pass.Live? || pass.Every?)
    requires rel != [] && UnsettlesIn(ks, rel, op)
    ensures InReach(pass, StepIn(ks, rel, OnEntry(op))) <==> |rel| == 1 || EntryOf(pass, ks, rel[..|rel| - 1]).Some?
    decreases ks, 1
  {
    SoundSplit(ks);
    var k := ks[0];
    if k.f.name == rel[0] {
      InReachCons(pass, StepAt(k, rel[1..], OnEntry(op)), ks[1..]);
      AllSoundReached(pass, ks[1..]);
      StepReachedKid(pass, k, rel[1..], op);
      if |rel| > 1 { assert rel[..|rel| - 1][1..] == rel[1..][..|rel| - 2]; }
    } else {
      InReachCons(pass, k, StepIn(ks[1..], rel, OnEntry(op)));
      SoundReached(pass, k);
      StepReachedIn(pass, ks[1..], rel, op);
    }
  }

  lemma {:induction false} StepReachedKid(pass: Pass, k: Tree, rest: Path, op: Op)
    requires Sound(k) && (pass.Live? || pass.Every?) && Unsettles(k, rest, op)
    ensures ReachedKid(pass, StepAt(k, rest, OnEntry(op)))
       <==> rest == [] || (InPass(pass, k.f) && Goes(k, rest[..|rest| - 1]))
    decreases k, 2
  {
    var r := StepAt(k, rest, OnEntry(op));
    if rest == [] {
      EntrySound(k, op);
      SoundReachable(r);
    } else {
      StepReached(k, rest, op);
      StaysUnsettled(k, rest, op);
    }
  }

  /**
    So what is done to a file is lost if its directory is removed meanwhile, and the removal is
    sent first: the cache has it, and no sync will send it.
   */
  lemma {:induction false} LateStepIsLost(r: File, d: File, x: File, op: Op, srv: Server)
    requires r.sts != Gone && r.sts != Del && r.name != ".zx" && d.name != ".zx" && x.name != ".zx"
    requires !IsSettled(Step(Removed(x).(sts := Gone), op))
    ensures var rel := [d.name, x.name];
            var t := TreeRun(Tree(r, [Tree(d, [Tree(x, [])])]),
                             [There([d.name], OnEntry(OpRemove)), SyncTree, There(rel, OnEntry(op))]);
            && NodeAt(t, rel).Some? && NodeAt(t, rel).value.f == Step(Removed(x).(sts := Gone), op)
            && NodeAt(Synced(t), rel) == NodeAt(t, rel)
            && At(SyncSrv(t, [], srv), rel) == At(srv, rel)
  {
    var rel := [d.name, x.name];
    var t0 := Tree(r, [Tree(d, [Tree(x, [])])]);
    var a, b, c := There([d.name], OnEntry(OpRemove)), SyncTree, There(rel, OnEntry(op));
    var x2, d2 := Removed(x).(sts := Gone), Removed(d).(sts := Gone);
    var t2 := Tree(Settled(r), [Tree(d2, [Tree(x2, [])])]);
    var x3 := Step(x2, op);
    Run3Tree(t0, a, b, c);
    RemovedAndSent(r, d, x);
    assert rel[1..] == [x.name] && rel[1..][1..] == [];
    AloneStep(x2, op);
    StepStays(x2, op);
    StepOnly(Tree(x2, []), [x.name], OnEntry(op));
    StepOnly(Tree(d2, [Tree(x2, [])]), rel, OnEntry(op));
    assert TreeStep(t2, c) == Tree(Settled(r), [Tree(d2, [Tree(x3, [])])]);
    GoneIsLeft(Settled(r), d2, x3, srv);
  }

  lemma AloneStep(x: File, op: Op)
    ensures EntryStep(Tree(x, []), op) == Tree(Step(x, op), [])
  {
    assert op.OpRemove? ==> Deleted(Tree(x, [])) == Tree(Removed(x), []) by { assert DeletedKids([]) == []; }
  }

  lemma {:induction false} RemovedAndSent(r: File, d: File, x: File)
    requires r.sts != Gone && r.sts != Del && r.name != ".zx" && d.name != ".zx" && x.name != ".zx"
    ensures Synced(StepAt(Tree(r, [Tree(d, [Tree(x, [])])]), [d.name], OnEntry(OpRemove)))
         == Tree(Settled(r), [Tree(Removed(d).(sts := Gone), [Tree(Removed(x).(sts := Gone), [])])])
  {
    var xr, dr := Removed(x), Removed(d);
    var x2, d2 := xr.(sts := Gone), dr.(sts := Gone);
    assert DeletedKids([Tree(x, [])]) == [Tree(xr, [])] by { assert [Tree(x, [])][1..] == []; }
    assert Deleted(Tree(d, [Tree(x, [])])) == Tree(dr, [Tree(xr, [])]);
    assert [d.name][1..] == [];
    StepOnly(Tree(d, [Tree(x, [])]), [d.name], OnEntry(OpRemove));
    assert StepAt(Tree(r, [Tree(d, [Tree(x, [])])]), [d.name], OnEntry(OpRemove)) == Tree(r, [Tree(dr, [Tree(xr, [])])]);
    assert SyncedAll(Every, [Tree(xr, [])]) == [Tree(x2, [])];
    assert SyncedAll(Live, [Tree(dr, [Tree(xr, [])])]) == [Tree(d2, [Tree(x2, [])])];
  }

  /** Bytes written and a size set on a file are lost that way, whatever they are. */
  lemma LateWritesUnsettle(x: File, off: int, msgs: seq<seq<Mblk.Byte>>, mtime: string, size: nat, nd: Attrs)
    ensures !IsSettled(Step(Removed(x).(sts := Gone), OpPutEnd(off, msgs, mtime)))
    ensures !IsSettled(Step(Removed(x).(sts := Gone), OpWstat(Option.Some(size), nd))) <==> !x.isdir
  {
    hide Mblk.Received, Changes, Mblk.Sized;
  }

  lemma StepOnly(k: Tree, rel: Path, op: NodeOp)
    requires rel != [] && k.f.name == rel[0]
    ensures StepIn([k], rel, op) == [StepAt(k, rel[1..], op)] && NodeIn([k], rel) == NodeAt(k, rel[1..])
  {
    assert [k][1..] == [];
  }

  lemma Run3Tree(t: Tree, a: TreeOp, b: TreeOp, c: TreeOp)
    ensures TreeRun(t, [a, b, c]) == TreeStep(TreeStep(TreeStep(t, a), b), c)
  {
    var t1 := TreeStep(t, a);
    var t2 := TreeStep(t1, b);
    assert [a, b, c][1..] == [b, c] && [b, c][1..] == [c] && [c][1..] == [];
    assert TreeRun(t2, [c]) == TreeStep(t2, c);
    assert TreeRun(t1, [b, c]) == TreeRun(t2, [c]);
  }

  lemma {:induction false} GoneIsLeft(r: File, d: File, x: File, srv: Server)
    requires IsSettled(r) && r.sts != Gone && r.name != ".zx" && d.sts == Gone
    ensures var t, rel := Tree(r, [Tree(d, [Tree(x, [])])]), [d.name, x.name];
            && NodeAt(t, rel) == Some(Tree(x, [])) && NodeAt(Synced(t), rel) == Some(Tree(x, []))
            && At(SyncSrv(t, [], srv), rel) == At(srv, rel)
  {
    var kd := Tree(d, [Tree(x, [])]);
    var t, rel := Tree(r, [kd]), [d.name, x.name];
    assert rel[1..] == [x.name] && rel[1..][1..] == [];
    StepOnly(Tree(x, []), [x.name], OnEntry(OpGone));
    StepOnly(kd, rel, OnEntry(OpGone));
    assert SyncedAll(Live, [kd]) == [kd];
    assert Unique(Tree(x, [])) && Unique(kd) && Unique(t);
    assert Entry(t, rel) == None;
    ServerHolds(t, srv, rel);
  }
}
