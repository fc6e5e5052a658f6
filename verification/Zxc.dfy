/**
  The write-back cache: the status of its entries, and their synchronisation with the server.
  What is pending for an entry is not lost until it is sent, and once all is sent the server
  has what the cache had.
 */
module Zxc {
  import opened Mblk

  datatype Status = New | NewMeta | Clean | Meta | Data | Del | Gone

  /** Attributes that may be set. Those that name the file, its type and its size are kept apart. */
  type Attrs = map<string, string>

  /** An entry of the cache: wd are the attributes to be updated at the server. */
  datatype File = File(name: string, isdir: bool, size: nat, d: Attrs, wd: Attrs, sts: Status, data: seq<Byte>)

  function Attr(d: Attrs, k: string): string
  {
    if k in d then d[k] else ""
  }

  // ----- one entry -----

  function Invalidated(f: File): File
  {
    match f.sts
    case Clean => f.(sts := New, data := [])
    case Meta => f.(sts := NewMeta, data := [])
    case _ => f
  }

  function DirtyMeta(s: Status): Status
  {
    match s
    case New => NewMeta
    case Clean => Meta
    case _ => s
  }

  /** The attributes of nd that change something. */
  function Changes(d: Attrs, nd: Attrs): Attrs
  {
    map k | k in nd && Attr(d, k) != nd[k] :: nd[k]
  }

  /** An entry whose attributes, and perhaps size, are set by a client. */
  function Wstated(f: File, size: Option<nat>, nd: Attrs): File
  {
    var g := if !f.isdir && size.Some? then
               if size.value != |f.data| then f.(sts := Data, data := Sized(f.data, size.value), size := size.value)
               else f.(sts := Data)
             else f;
    var some := Changes(g.d, nd);
    g.(d := g.d + some, wd := g.wd + some, sts := if some != map[] then DirtyMeta(g.sts) else g.sts)
  }

  datatype Option<T> = None | Some(value: T)

  /** An entry of the same type as what the server has now. */
  function InformedSame(f: File, size: nat, d: Attrs): File
  {
    if f.name == ".zx" then f
    else
      var g := if f.sts == Gone then f.(sts := New) else f;
      var h := if g.sts != Data && (Attr(g.d, "mtime") != Attr(d, "mtime") || g.size != size) then Invalidated(g) else g;
      h.(size := size, d := d + h.wd)
  }

  /** The entry is not at the server. */
  function WentAway(f: File): File
  {
    f.(sts := Gone, data := [])
  }

  /** The server says what the attributes of an entry are, and whether it is a directory. */
  function Informed(f: File, isdir: bool, size: nat, d: Attrs): File
  {
    if isdir == f.isdir then InformedSame(f, size, d)
    else if f.name == ".zx" then f
    else f.(sts := New, isdir := isdir, size := size, d := d, data := [])
  }

  /** A client removes the entry. */
  function Removed(f: File): File
  {
    f.(sts := Del, wd := map[], data := [])
  }

  /** Is the data of the entry, or the list of its children, good as it is? With stats, directories are always read. */
  predicate DataOk(f: File, stats: bool)
  {
    f.name == ".zx" || (f.sts != New && f.sts != NewMeta && !(stats && f.isdir && (f.sts == Meta || f.sts == Clean)))
  }

  /** An entry once its data, or the list of its children, was read from the server if it was not good. */
  function Fetched(f: File, stats: bool, data: seq<Byte>): File
  {
    if DataOk(f, stats) then f
    else
      var g := f.(sts := if f.sts == NewMeta then Meta else Clean);
      if f.isdir then g else g.(data := data, size := |data|)
  }

  /** An entry once the messages of a client have been written to it. */
  function PutDone(f: File, off: int, msgs: seq<seq<Byte>>, mtime: string): File
  {
    var data := Received(f.data, if off < 0 then |f.data| else off, msgs);
    f.(sts := Data, data := data, size := |data|, d := f.d["mtime" := mtime], wd := f.wd["mtime" := mtime])
  }

  class MFile {
    var f: File

    constructor (f: File)
      ensures this.f == f
    {
      this.f := f;
    }

    method Inval()
      modifies this
      ensures f == Invalidated(old(f))
    {
      match f.sts {
        case Clean =>
          f := f.(sts := New);
          f := f.(data := []);
        case Meta =>
          f := f.(sts := NewMeta);
          f := f.(data := []);
        case _ =>   // as it was
      }
    }

    method SetDirtyMeta()
      modifies this
      ensures f == old(f).(sts := DirtyMeta(old(f).sts))
    {
      if f.sts == New {
        f := f.(sts := NewMeta);
      } else if f.sts == Clean {
        f := f.(sts := Meta);
      }
    }

    method SetDirtyData()
      modifies this
      ensures f == old(f).(sts := Data)
    {
      f := f.(sts := Data);
    }

    method Gone()
      modifies this
      ensures f == WentAway(old(f))
    {
      f := f.(sts := Status.Gone);
      f := f.(data := []);
    }

    /** The server says what the attributes of the entry are; it is of another type if isdir differs. */
    method GotMeta(isdir: bool, size: nat, d: Attrs)
      modifies this
      ensures f == Informed(old(f), isdir, size, d)
    {
      if f.name == ".zx" {
        return;
      }
      if isdir != f.isdir {
        Gone();
        f := f.(sts := New);
        f := f.(isdir := isdir, size := size, d := d);
        return;
      }
      if f.sts == Status.Gone {
        f := f.(sts := New);
      }
      if f.sts != Data && (Attr(f.d, "mtime") != Attr(d, "mtime") || f.size != size) {
        Inval();
      }
      f := f.(size := size, d := d);
      f := f.(d := f.d + f.wd);
    }

    /** The data, or the list of children, of the entry is needed; data is what the server has. */
    method Fetch(stats: bool, data: seq<Byte>)
      modifies this
      ensures f == Fetched(old(f), stats, data)
    {
      if DataOk(f, stats) {
        return;
      }
      if !f.isdir {
        f := f.(size := |data|);
        f := f.(data := data);
      }
      if f.sts == NewMeta {
        f := f.(sts := Meta);
      } else {
        f := f.(sts := Clean);
      }
    }

    method Remove()
      modifies this
      ensures f == Removed(old(f))
    {
      f := f.(sts := Del);
      f := f.(wd := map[]);
      f := f.(data := []);
    }

    method Wstat(size: Option<nat>, nd: Attrs)
      modifies this
      ensures f == Wstated(old(f), size, nd)
    {
      if !f.isdir && size.Some? {
        SetDirtyData();
        if size.value != |f.data| {
          f := f.(data := Sized(f.data, size.value));
          f := f.(size := size.value);
        }
      }
      var some := Changes(f.d, nd);
      f := f.(d := f.d + some, wd := f.wd + some);
      if some != map[] {
        SetDirtyMeta();
      }
    }

    /** The entry is locked to start a put, and again when all has been received. */
    method PutStart()
      modifies this
      ensures f == old(f).(sts := Data)
    {
      SetDirtyData();
    }

    method PutEnd(off: int, msgs: seq<seq<Byte>>, mtime: string)
      modifies this
      ensures f == PutDone(old(f), off, msgs, mtime)
    {
      f := f.(data := Received(f.data, if off < 0 then |f.data| else off, msgs));
      SetDirtyData();
      f := f.(size := |f.data|);
      if f.sts != Del {
        f := f.(d := f.d["mtime" := mtime]);
        f := f.(wd := f.wd["mtime" := mtime]);
        SetDirtyData();
      }
    }
  }

  // ----- what is pending -----

  /** The entry has the attributes that are to be updated. */
  predicate Holds(f: File)
  {
    forall k | k in f.wd :: k in f.d && f.d[k] == f.wd[k]
  }

  /** What happens to an entry: what clients do, and what the server is found to have. */
  datatype Op =
    | OpInval
    | OpMeta(isdir: bool, size: nat, d: Attrs)
    | OpFetch(stats: bool, data: seq<Byte>)
    | OpGone
    | OpRemove
    | OpWstat(newsize: Option<nat>, nd: Attrs)
    | OpPutStart
    | OpPutEnd(off: int, msgs: seq<seq<Byte>>, mtime: string)

  function Step(f: File, op: Op): File
  {
    match op
    case OpInval => Invalidated(f)
    case OpMeta(isdir, size, d) => Informed(f, isdir, size, d)
    case OpFetch(stats, data) => Fetched(f, stats, data)
    case OpGone => WentAway(f)
    case OpRemove => Removed(f)
    case OpWstat(size, nd) => Wstated(f, size, nd)
    case OpPutStart => f.(sts := Data)
    case OpPutEnd(off, msgs, mtime) => PutDone(f, off, msgs, mtime)
  }

  function Run(f: File, ops: seq<Op>): File
    decreases |ops|
  {
    if ops == [] then f else Run(Step(f, ops[0]), ops[1..])
  }

  /** The server says that the entry is of another type. */
  predicate OtherType(f: File, op: Op)
  {
    op.OpMeta? && op.isdir != f.isdir && f.name != ".zx"
  }

  /** A directory with attributes to be updated is read again, as it always is with stats. */
  predicate ReadAgain(f: File, op: Op)
  {
    op.OpFetch? && op.stats && f.isdir && f.sts == Meta && f.name != ".zx"
  }

  predicate Pending(s: Status)
  {
    s == Data || s == NewMeta || s == Meta
  }

  /** g has pending what f had, or more. */
  predicate Keeps(f: File, g: File)
  {
    && (f.sts == Data ==> g.sts == Data)
    && (f.sts == NewMeta || f.sts == Meta ==> Pending(g.sts))
    && f.wd.Keys <= g.wd.Keys
    && (Holds(f) ==> Holds(g))
  }

  /** What invalidation, reading and news of the same type do not touch: bytes to be sent, and attributes to be updated. */
  lemma ServerKeeps(f: File, op: Op)
    requires op.OpInval? || op.OpFetch? || (op.OpMeta? && !OtherType(f, op))
    ensures Step(f, op).wd == f.wd && (f.sts == Data ==> Step(f, op).sts == Data && Step(f, op).data == f.data)
  {}

  /** What is pending is dropped by a removal, by the server not having the entry, or having another, and by reading again. */
  predicate Drops(f: File, op: Op)
  {
    || (op.OpRemove? && (Pending(f.sts) || f.wd != map[]))
    || (op.OpGone? && Pending(f.sts))
    || (OtherType(f, op) && (Pending(f.sts) || (Holds(f) && !Holds(f.(d := op.d)))))
    || ReadAgain(f, op)
  }

  lemma WstatKeeps(f: File, size: Option<nat>, nd: Attrs)
    ensures Keeps(f, Wstated(f, size, nd))
  {
    var g := Wstated(f, size, nd);
    forall k | k in f.wd ensures k in g.wd {}
    if Holds(f) {
      forall k | k in g.wd ensures k in g.d && g.d[k] == g.wd[k] {}
    }
  }

  lemma RemoveKeeps(f: File)
    ensures Keeps(f, Removed(f)) <==> !Pending(f.sts) && f.wd == map[]
  {
    if f.wd != map[] {
      var k :| k in f.wd;
      assert k in f.wd.Keys && k !in Removed(f).wd.Keys;
    }
  }

  lemma NewsKeep(f: File, isdir: bool, size: nat, d: Attrs)
    ensures Keeps(f, Informed(f, isdir, size, d)) <==> !Drops(f, OpMeta(isdir, size, d))
  {
    var g := Informed(f, isdir, size, d);
    if isdir != f.isdir && f.name != ".zx" {
      assert Holds(f.(d := d)) == Holds(g);
    } else {
      assert g.wd == f.wd && forall k | k in f.wd && k in f.d && f.d[k] == f.wd[k] :: k in g.d && g.d[k] == f.wd[k];
    }
  }

  lemma StepKeeps(f: File, op: Op)
    ensures Keeps(f, Step(f, op)) <==> !Drops(f, op)
  {
    match op
    case OpWstat(size, nd) => WstatKeeps(f, size, nd);
    case OpRemove => RemoveKeeps(f);
    case OpMeta(isdir, size, d) => NewsKeep(f, isdir, size, d);
    case OpPutEnd(off, msgs, mtime) => hide Received;
    case _ =>
  }

  /** Unless a step drops it, what is pending stays so: dirty data, and every attribute to be updated. */
  lemma {:induction false} RunKeeps(f: File, ops: seq<Op>)
    requires forall n | 0 <= n < |ops| :: !Drops(Run(f, ops[..n]), ops[n])
    ensures Keeps(f, Run(f, ops))
    decreases |ops|
  {
    if ops != [] {
      var g, rest := Step(f, ops[0]), ops[1..];
      assert Run(f, ops[..0]) == f;
      StepKeeps(f, ops[0]);
      forall n | 0 <= n < |rest| ensures !Drops(Run(g, rest[..n]), rest[n]) {
        RunNext(f, ops, n);
      }
      RunKeeps(g, rest);
    }
  }

  /** A run that starts with a step. */
  lemma RunNext(f: File, ops: seq<Op>, n: nat)
    requires n < |ops|
    ensures Run(f, ops[..n + 1]) == Run(Step(f, ops[0]), ops[1..][..n])
  {
    assert ops[..n + 1][0] == ops[0] && ops[..n + 1][1..] == ops[1..][..n];
  }

  lemma {:induction false} RunMore(f: File, ops: seq<Op>, op: Op)
    ensures Run(f, ops + [op]) == Step(Run(f, ops), op)
    decreases |ops|
  {
    if ops == [] {
      assert [op][1..] == [];
    } else {
      assert (ops + [op])[1..] == ops[1..] + [op];
      RunMore(Step(f, ops[0]), ops[1..], op);
    }
  }

  lemma Run2(f: File, a: Op, b: Op)
    ensures Run(f, [a, b]) == Step(Step(f, a), b)
  {
    assert [a, b][1..] == [b] && [b][1..] == [];
    assert Run(Step(f, a), [b]) == Step(Step(f, a), b);
  }

  lemma Run3(f: File, a: Op, b: Op, c: Op)
    ensures Run(f, [a, b, c]) == Step(Step(Step(f, a), b), c)
  {
    assert [a, b, c][1..] == [b, c];
    Run2(Step(f, a), b, c);
  }

  // ----- is a removal lasting? -----

  /** What makes a removed entry be one that is not removed. */
  predicate Undoes(f: File, op: Op)
  {
    op.OpPutStart? || op.OpPutEnd? || op.OpGone? || OtherType(f, op) || (op.OpWstat? && op.newsize.Some? && !f.isdir)
  }

  lemma StepUndoes(f: File, op: Op)
    requires !op.OpRemove?
    ensures f.sts == Del ==> (Step(f, op).sts == Del <==> !Undoes(f, op))
    ensures f.sts != Del ==> Step(f, op).sts != Del
    ensures !OtherType(f, op) ==> Step(f, op).isdir == f.isdir && Step(f, op).name == f.name
  {
    hide Changes, Sized, Received, Attr;
  }

  /** Without another removal, a removed entry is still removed exactly when nothing of that kind came after. */
  lemma {:induction false} RemovalLasts(f: File, ops: seq<Op>)
    requires f.sts == Del && forall op | op in ops :: !op.OpRemove?
    ensures Run(f, ops).sts == Del <==> forall op | op in ops :: !Undoes(f, op)
    decreases |ops|
  {
    if ops != [] {
      hide Step;
      var g, rest := Step(f, ops[0]), ops[1..];
      assert ops[0] in ops && forall op | op in rest :: op in ops;
      assert forall op | op in ops :: op == ops[0] || op in rest;
      StepUndoes(f, ops[0]);
      if Undoes(f, ops[0]) {
        StaysUndone(g, rest);
      } else {
        RemovalLasts(g, rest);
        assert forall op :: Undoes(g, op) == Undoes(f, op);
      }
    }
  }

  lemma {:induction false} StaysUndone(f: File, ops: seq<Op>)
    requires f.sts != Del && forall op | op in ops :: !op.OpRemove?
    ensures Run(f, ops).sts != Del
    decreases |ops|
  {
    if ops != [] {
      hide Step;
      assert ops[0] in ops && forall op | op in ops[1..] :: op in ops;
      StepUndoes(f, ops[0]);
      StaysUndone(Step(f, ops[0]), ops[1..]);
    }
  }

  /**
    A file removed while a client writes to it is back when the write is done, and the next
    sync puts at the server what was written, even if the server had nothing.
   */
  lemma RemovedWhileWritten(f: File, off: int, msgs: seq<seq<Byte>>, mtime: string, was: Option<SFile>)
    requires !f.isdir
    ensures var g := Run(f, [OpPutStart, OpRemove, OpPutEnd(off, msgs, mtime)]);
            var data := Received([], if off < 0 then 0 else off, msgs);
            g.data == data && Sent(g, was) == Some(SFile(false, |data|, f.d["mtime" := mtime], data))
  {
    Run3(f, OpPutStart, OpRemove, OpPutEnd(off, msgs, mtime));
  }

  /** One removed right after it was made, before its attributes are set for the first write, is back before any byte arrives. */
  lemma RemovedWhenMade(f: File, nd: Attrs, was: Option<SFile>)
    requires !f.isdir && f.sts == Data && f.data == []
    ensures var g := Run(f, [OpRemove, OpWstat(Some(0), nd)]);
            g.sts == Data && Sent(g, was) == Some(SFile(false, 0, f.d + Changes(f.d, nd), []))
  {
    Run2(f, OpRemove, OpWstat(Some(0), nd));
  }

  // ----- are attributes forgotten? -----

  /** Attributes to be updated are never with a status that does not send them. */
  predicate Noted(f: File)
  {
    f.wd != map[] ==> f.sts != New && f.sts != Clean
  }

  /**
    What leaves attributes to be updated behind: news of another type, or of an entry that had
    gone away, and reading again a directory, as it always is with stats.
   */
  predicate Forgets(f: File, op: Op)
  {
    f.wd != map[] &&
    (OtherType(f, op) || (op.OpMeta? && f.sts == Gone && f.name != ".zx") || ReadAgain(f, op))
  }

  lemma WstatNotes(f: File, size: Option<nat>, nd: Attrs)
    requires Noted(f)
    ensures Noted(Wstated(f, size, nd))
  {
    hide Changes, Sized;
    assert Changes(f.d, nd) == map[] ==> Wstated(f, size, nd).wd == f.wd;
  }

  lemma StepNotes(f: File, op: Op)
    requires Noted(f)
    ensures Noted(Step(f, op)) <==> !Forgets(f, op)
  {
    hide Received, Wstated;
    if op.OpWstat? { WstatNotes(f, op.newsize, op.nd); }
  }

  /** In a run, attributes to be updated are always noted exactly when no step forgets them. */
  lemma {:induction false} RunNotes(f: File, ops: seq<Op>)
    requires Noted(f)
    ensures (forall n | 0 <= n <= |ops| :: Noted(Run(f, ops[..n])))
       <==> (forall n | 0 <= n < |ops| :: !Forgets(Run(f, ops[..n]), ops[n]))
  {
    assert Run(f, ops[..0]) == f;
    if forall n | 0 <= n <= |ops| :: Noted(Run(f, ops[..n])) {
      forall n | 0 <= n < |ops| ensures !Forgets(Run(f, ops[..n]), ops[n]) {
        NotesNext(f, ops, n);
        assert Noted(Run(f, ops[..n + 1]));
      }
    }
    if forall n | 0 <= n < |ops| :: !Forgets(Run(f, ops[..n]), ops[n]) {
      var m := 0;
      while m < |ops|
        invariant 0 <= m <= |ops| && forall n | 0 <= n <= m :: Noted(Run(f, ops[..n]))
      {
        NotesNext(f, ops, m);
        m := m + 1;
      }
    }
  }

  lemma NotesNext(f: File, ops: seq<Op>, n: nat)
    requires n < |ops| && Noted(Run(f, ops[..n]))
    ensures Noted(Run(f, ops[..n + 1])) <==> !Forgets(Run(f, ops[..n]), ops[n])
  {
    assert ops[..n + 1] == ops[..n] + [ops[n]];
    RunMore(f, ops[..n], ops[n]);
    StepNotes(Run(f, ops[..n]), ops[n]);
  }

  /** Noted is what it takes: a sync gives the server the attributes to be updated, or nothing at all. */
  lemma NotedIsSent(f: File, was: SFile)
    requires Holds(f) && f.wd != map[] && f.sts != Del && f.sts != Gone
    ensures Noted(f) ==> Sent(f, Some(was)).Some? && forall k | k in f.wd :: Attr(Sent(f, Some(was)).value.d, k) == f.wd[k]
    ensures !Noted(f) ==> Sent(f, Some(was)) == Some(was)
  {}

  /** Three runs of a directory just listed, whose attribute k is set to v, after which the server is never told. */
  lemma ForgettingRuns(f: File, k: string, v: string, size: nat, d: Attrs)
    requires f.isdir && f.sts == New && f.wd == map[] && f.name != ".zx" && Attr(f.d, k) != v
    ensures var set_ := OpWstat(None, map[k := v]);
            var away, other, again :=
              Run(f, [set_, OpGone, OpMeta(true, size, d)]),
              Run(f, [set_, OpMeta(false, size, d)]),
              Run(f, [set_, OpFetch(true, []), OpFetch(true, [])]);
            forall g | g in {away, other, again} :: g.wd == map[k := v] && !Noted(g)
  {
    var a := OpWstat(None, map[k := v]);
    var g := Step(f, a);
    assert Changes(f.d, map[k := v]) == map[k := v] && f.wd + map[k := v] == map[k := v];
    assert g.sts == NewMeta && g.wd == map[k := v];
    Run2(f, a, OpMeta(false, size, d));
    Run3(f, a, OpGone, OpMeta(true, size, d));
    Run3(f, a, OpFetch(true, []), OpFetch(true, []));
  }

  // ----- the tree of entries and the server -----

  type Path = seq<string>

  /** A file at the server. */
  datatype SFile = SFile(isdir: bool, size: nat, d: Attrs, data: seq<Byte>)

  type Server = map<Path, SFile>

  /** An entry and those below it. */
  datatype Tree = Tree(f: File, kids: seq<Tree>)

  function At(srv: Server, p: Path): Option<SFile>
  {
    if p in srv then Some(srv[p]) else None
  }

  /** What the server has of an entry once it is sent; it never fails. */
  function Sent(f: File, was: Option<SFile>): Option<SFile>
  {
    match f.sts
    case Del => None
    case Data => Some(SFile(f.isdir, |f.data|, f.d, if f.isdir then [] else f.data))
    case NewMeta => if was.Some? then Some(was.value.(d := was.value.d + f.wd)) else None
    case Meta => if was.Some? then Some(was.value.(d := was.value.d + f.wd)) else None
    case _ => was
  }

  function Put(srv: Server, p: Path, x: Option<SFile>): Server
  {
    if x.Some? then srv[p := x.value] else srv - {p}
  }

  function Settled(f: File): File
  {
    match f.sts
    case Del => f.(sts := Gone)
    case Data => f.(sts := Clean, wd := map[], size := |f.data|)
    case NewMeta => f.(sts := New, wd := map[])
    case Meta => f.(sts := New, wd := map[])
    case _ => f
  }

  /** The children a pass of a sync goes to: files are sent before directories, and when removing, all are. */
  datatype Pass = Files | Dirs | Live | Every

  predicate InPass(pass: Pass, f: File)
  {
    match pass
    case Files => f.sts != Gone && !f.isdir
    case Dirs => f.sts != Gone && f.isdir
    case Live => f.sts != Gone
    case Every => true
  }

  function KidsPass(f: File): Pass
  {
    if f.sts == Del then Every else Live
  }

  /** The tree once it is sent. */
  function Synced(t: Tree): Tree
  {
    if t.f.name == ".zx" then Tree(t.f.(sts := Clean), t.kids)
    else Tree(Settled(t.f), SyncedAll(KidsPass(t.f), t.kids))
  }

  function SyncedAll(pass: Pass, ks: seq<Tree>): seq<Tree>
    decreases ks
  {
    if ks == [] then []
    else [if InPass(pass, ks[0].f) then Synced(ks[0]) else ks[0]] + SyncedAll(pass, ks[1..])
  }

  /** The server once the tree at p is sent. */
  function SyncSrv(t: Tree, p: Path, srv: Server): Server
    decreases t, 0
  {
    if t.f.name == ".zx" then srv
    else if t.f.sts == Del then Put(SyncSrvAll(Every, t.kids, p, srv), p, None)
    else
      var mid := Put(srv, p, Sent(t.f, At(srv, p)));
      SyncSrvAll(Dirs, t.kids, p, SyncSrvAll(Files, t.kids, p, mid))
  }

  function SyncSrvAll(pass: Pass, ks: seq<Tree>, p: Path, srv: Server): Server
    decreases ks, 1
  {
    if ks == [] then srv
    else SyncSrvAll(pass, ks[1..], p, if InPass(pass, ks[0].f) then SyncSrv(ks[0], p + [ks[0].f.name], srv) else srv)
  }

  /** Send the tree at p to the server. */
  method Sync(t: Tree, p: Path, srv: Server) returns (t': Tree, srv': Server)
    ensures t' == Synced(t) && srv' == SyncSrv(t, p, srv)
    decreases t, 0
  {
    var f := t.f;
    if f.name == ".zx" {
      return Tree(f.(sts := Clean), t.kids), srv;
    }
    srv' := srv;
    var kids := t.kids;
    match f.sts {
      case Del =>   // try to del children first
        kids, srv' := SyncPass(Every, t.kids, kids, p, srv');
        srv' := srv' - {p};
        SyncedEach(Every, t.kids);
        f := f.(sts := Gone);
        return Tree(f, kids), srv';
      case Gone =>
      case New =>
      case Clean =>
      case NewMeta =>
        srv' := Put(srv', p, Sent(f, At(srv', p)));
        f := f.(wd := map[], sts := New);
      case Meta =>
        srv' := Put(srv', p, Sent(f, At(srv', p)));
        f := f.(wd := map[], sts := New);
      case Data =>
        f := f.(size := |f.data|);
        srv' := srv'[p := SFile(f.isdir, f.size, f.d, if f.isdir then [] else f.data)];
        f := f.(wd := map[], sts := Clean);
    }
    assert Put(srv, p, At(srv, p)) == srv;
    kids, srv' := SyncPass(Files, t.kids, kids, p, srv');
    kids, srv' := SyncPass(Dirs, t.kids, kids, p, srv');
    SyncedEach(Live, t.kids);
    t' := Tree(f, kids);
  }

  /** Send the children in the pass; cur is what the others are by now. */
  method SyncPass(pass: Pass, ks: seq<Tree>, cur: seq<Tree>, p: Path, srv: Server) returns (cur': seq<Tree>, srv': Server)
    requires |cur| == |ks|
    ensures |cur'| == |ks| && srv' == SyncSrvAll(pass, ks, p, srv)
    ensures forall i | 0 <= i < |ks| :: cur'[i] == if InPass(pass, ks[i].f) then Synced(ks[i]) else cur[i]
    decreases ks, 1
  {
    cur', srv' := cur, srv;
    assert ks[0..] == ks;
    for i := 0 to |ks|
      invariant |cur'| == |ks| && SyncSrvAll(pass, ks[i..], p, srv') == SyncSrvAll(pass, ks, p, srv)
      invariant forall j | 0 <= j < i :: cur'[j] == if InPass(pass, ks[j].f) then Synced(ks[j]) else cur[j]
      invariant forall j | i <= j < |ks| :: cur'[j] == cur[j]
    {
      assert ks[i..][0] == ks[i] && ks[i..][1..] == ks[i + 1..];
      if InPass(pass, ks[i].f) {
        var k;
        k, srv' := Sync(ks[i], p + [ks[i].f.name], srv');
        cur' := cur'[i := k];
      }
    }
  }

  lemma {:induction false} SyncedEach(pass: Pass, ks: seq<Tree>)
    ensures |SyncedAll(pass, ks)| == |ks|
    ensures forall i | 0 <= i < |ks| :: SyncedAll(pass, ks)[i] == if InPass(pass, ks[i].f) then Synced(ks[i]) else ks[i]
    decreases ks
  {
    if ks != [] { SyncedEach(pass, ks[1..]); }
  }

  // ----- after a sync -----

  predicate IsSettled(f: File)
  {
    f.sts == New || f.sts == Clean || f.sts == Gone
  }

  predicate AllSettled(t: Tree)
  {
    IsSettled(t.f) && forall k | k in t.kids :: AllSettled(k)
  }

  /** Nothing is left to send where a sync does not go: below what is gone, or control files. */
  predicate Reachable(t: Tree)
  {
    && (t.f.name == ".zx" ==> forall k | k in t.kids :: AllSettled(k))
    && forall k | k in t.kids :: if InPass(KidsPass(t.f), k.f) then Reachable(k) else AllSettled(k)
  }

  /** After a sync with a server that does not fail nothing is pending, exactly then. */
  lemma {:induction false} SyncSettles(t: Tree)
    ensures AllSettled(Synced(t)) <==> Reachable(t)
    decreases t, 0
  {
    if t.f.name == ".zx" {
      if forall k | k in t.kids :: AllSettled(k) {
        forall k | k in t.kids ensures Reachable(k) { SettledReachable(k); }
      }
    } else {
      SettlesAll(KidsPass(t.f), t.kids);
    }
  }

  lemma {:induction false} SettlesAll(pass: Pass, ks: seq<Tree>)
    ensures (forall k | k in SyncedAll(pass, ks) :: AllSettled(k))
       <==> (forall k | k in ks :: if InPass(pass, k.f) then Reachable(k) else AllSettled(k))
    decreases ks, 1
  {
    hide AllSettled, Reachable, InPass, Synced;
    if ks != [] {
      var k, rest := if InPass(pass, ks[0].f) then Synced(ks[0]) else ks[0], SyncedAll(pass, ks[1..]);
      SettlesAll(pass, ks[1..]);
      SyncSettles(ks[0]);
      assert ks[0] in ks && k in [k] + rest;
      assert forall j | j in ks :: j == ks[0] || j in ks[1..];
      assert forall j | j in [k] + rest :: j == k || j in rest;
      assert forall j | j in ks[1..] :: j in ks;
      assert forall j | j in rest :: j in [k] + rest;
    }
  }

  lemma {:induction false} SettledReachable(t: Tree)
    requires AllSettled(t)
    ensures Reachable(t)
    decreases t
  {
    forall k | k in t.kids ensures Reachable(k) { SettledReachable(k); }
  }

  predicate DistinctNames(ks: seq<Tree>)
  {
    forall i, j | 0 <= i < j < |ks| :: ks[i].f.name != ks[j].f.name
  }

  predicate Unique(t: Tree)
  {
    DistinctNames(t.kids) && forall k | k in t.kids :: Unique(k)
  }

  /**
    What the server must have at rel below the tree, when it had cur: what was sent for the entry there, if
    the sync goes to it. No order of the children matters.
   */
  function Want(t: Tree, rel: Path, cur: Option<SFile>): Option<SFile>
    decreases t
  {
    if t.f.name == ".zx" then cur
    else if rel == [] then Sent(t.f, cur)
    else WantAll(KidsPass(t.f), t.kids, rel, cur)
  }

  function WantAll(pass: Pass, ks: seq<Tree>, rel: Path, cur: Option<SFile>): Option<SFile>
    decreases ks
  {
    if ks == [] || rel == [] then cur
    else if ks[0].f.name == rel[0] then (if InPass(pass, ks[0].f) then Want(ks[0], rel[1..], cur) else cur)
    else WantAll(pass, ks[1..], rel, cur)
  }

  /** A sync changes nothing at the server but what is at its path, or below. */
  lemma {:induction false} SyncFrame(t: Tree, p: Path, srv: Server, q: Path)
    requires !(p <= q)
    ensures At(SyncSrv(t, p, srv), q) == At(srv, q)
    decreases t, 0
  {
    var mid := Put(srv, p, Sent(t.f, At(srv, p)));
    SyncFrameAll(Every, t.kids, p, srv, q);
    SyncFrameAll(Files, t.kids, p, mid, q);
    SyncFrameAll(Dirs, t.kids, p, SyncSrvAll(Files, t.kids, p, mid), q);
  }

  lemma {:induction false} SyncFrameAll(pass: Pass, ks: seq<Tree>, p: Path, srv: Server, q: Path)
    requires forall k | k in ks :: !(p + [k.f.name] <= q)
    ensures At(SyncSrvAll(pass, ks, p, srv), q) == At(srv, q)
    decreases ks, 1
  {
    if ks != [] {
      var k := ks[0];
      assert k in ks;
      SyncFrame(k, p + [k.f.name], srv, q);
      SyncFrameAll(pass, ks[1..], p, if InPass(pass, k.f) then SyncSrv(k, p + [k.f.name], srv) else srv, q);
    }
  }

  lemma {:induction false} SyncAllIs(pass: Pass, ks: seq<Tree>, p: Path, srv: Server, rel: Path)
    requires DistinctNames(ks) && forall k | k in ks :: Unique(k)
    ensures At(SyncSrvAll(pass, ks, p, srv), p + rel) == WantAll(pass, ks, rel, At(srv, p + rel))
    decreases ks, 1
  {
    if ks != [] {
      var k, rest := ks[0], ks[1..];
      assert k in ks;
      var q, pk := p + rel, p + [k.f.name];
      var mid := if InPass(pass, k.f) then SyncSrv(k, pk, srv) else srv;
      assert forall j | j in rest :: j.f.name != k.f.name;
      if rel != [] && rel[0] == k.f.name {
        assert rel == [rel[0]] + rel[1..];
        assert q == pk + rel[1..];
        SyncIs(k, pk, srv, rel[1..]);
        forall j | j in rest ensures !(p + [j.f.name] <= q) {
          assert (p + [j.f.name])[|p|] != q[|p|];
        }
        SyncFrameAll(pass, rest, p, mid, q);
      } else {
        assert !(pk <= q) by { assert pk[|p|] == k.f.name; assert rel != [] ==> q[|p|] == rel[0]; }
        SyncFrame(k, pk, srv, q);
        SyncAllIs(pass, rest, p, mid, rel);
      }
    }
  }

  /** Files and then directories are all. */
  lemma {:induction false} FilesThenDirs(ks: seq<Tree>, rel: Path, cur: Option<SFile>)
    ensures WantAll(Dirs, ks, rel, WantAll(Files, ks, rel, cur)) == WantAll(Live, ks, rel, cur)
    decreases ks
  {
    if ks != [] && rel != [] && ks[0].f.name != rel[0] { FilesThenDirs(ks[1..], rel, cur); }
  }

  /** After a sync, the server has at each path what the cache had to send there, and all else is as it was. */
  lemma {:induction false} SyncIs(t: Tree, p: Path, srv: Server, rel: Path)
    requires Unique(t)
    ensures At(SyncSrv(t, p, srv), p + rel) == Want(t, rel, At(srv, p + rel))
    decreases t, 0
  {
    if t.f.name != ".zx" {
      var q := p + rel;
      assert q == p <==> rel == [];
      if t.f.sts == Del {
        SyncAllIs(Every, t.kids, p, srv, rel);
      } else {
        var mid := Put(srv, p, Sent(t.f, At(srv, p)));
        SyncAllIs(Files, t.kids, p, mid, rel);
        SyncAllIs(Dirs, t.kids, p, SyncSrvAll(Files, t.kids, p, mid), rel);
        FilesThenDirs(t.kids, rel, At(mid, q));
      }
    }
  }

  /** The entry at rel, if a sync goes to it. */
  function Entry(t: Tree, rel: Path): Option<File>
    decreases t
  {
    if t.f.name == ".zx" then None
    else if rel == [] then Some(t.f)
    else EntryOf(KidsPass(t.f), t.kids, rel)
  }

  function EntryOf(pass: Pass, ks: seq<Tree>, rel: Path): Option<File>
    decreases ks
  {
    if ks == [] || rel == [] then None
    else if ks[0].f.name == rel[0] then (if InPass(pass, ks[0].f) then Entry(ks[0], rel[1..]) else None)
    else EntryOf(pass, ks[1..], rel)
  }

  lemma {:induction false} WantEntry(t: Tree, rel: Path, cur: Option<SFile>)
    ensures Want(t, rel, cur) == match Entry(t, rel) case None => cur case Some(f) => Sent(f, cur)
    decreases t
  {
    if rel != [] { WantEntryOf(KidsPass(t.f), t.kids, rel, cur); }
  }

  lemma {:induction false} WantEntryOf(pass: Pass, ks: seq<Tree>, rel: Path, cur: Option<SFile>)
    ensures WantAll(pass, ks, rel, cur) == match EntryOf(pass, ks, rel) case None => cur case Some(f) => Sent(f, cur)
    decreases ks
  {
    if ks != [] && rel != [] {
      if ks[0].f.name == rel[0] { WantEntry(ks[0], rel[1..], cur); } else { WantEntryOf(pass, ks[1..], rel, cur); }
    }
  }

  /** So the server holds the cached bytes of what was written, the attributes that were set, and nothing that was removed. */
  lemma {:induction false} ServerHolds(t: Tree, srv: Server, rel: Path)
    requires Unique(t)
    ensures var now := At(SyncSrv(t, [], srv), rel);
            match Entry(t, rel)
            case None => now == At(srv, rel)
            case Some(f) =>
              && (f.sts == Data ==> now == Some(SFile(f.isdir, |f.data|, f.d, if f.isdir then [] else f.data)))
              && (f.sts == Meta || f.sts == NewMeta ==> now == if At(srv, rel).None? then None else
                    Some(At(srv, rel).value.(d := At(srv, rel).value.d + f.wd)))
              && (f.sts == Del ==> now == None)
              && (IsSettled(f) ==> now == At(srv, rel))
  {
    assert [] + rel == rel;
    SyncIs(t, [], srv, rel);
    WantEntry(t, rel, At(srv, rel));
  }

  // ----- files are sent concurrently -----

  lemma {:induction false} WantIn(pass: Pass, ks: seq<Tree>, k: Tree, rel: Path, cur: Option<SFile>)
    requires DistinctNames(ks) && k in ks && rel != [] && rel[0] == k.f.name
    ensures WantAll(pass, ks, rel, cur) == if InPass(pass, k.f) then Want(k, rel[1..], cur) else cur
    decreases |ks|
  {
    if ks[0] != k {
      var i :| 0 < i < |ks| && ks[i] == k;
      assert ks[0].f.name != ks[i].f.name;
      WantIn(pass, ks[1..], k, rel, cur);
    }
  }

  lemma {:induction false} WantOut(pass: Pass, ks: seq<Tree>, rel: Path, cur: Option<SFile>)
    requires rel != [] ==> forall k | k in ks :: k.f.name != rel[0]
    ensures WantAll(pass, ks, rel, cur) == cur
    decreases |ks|
  {
    if ks != [] && rel != [] {
      assert ks[0] in ks;
      WantOut(pass, ks[1..], rel, cur);
    }
  }

  /** In whatever order the children are sent, the server ends up the same. */
  lemma {:induction false} AnyOrder(t: Tree, kids: seq<Tree>, p: Path, srv: Server, rel: Path)
    requires Unique(t) && Unique(Tree(t.f, kids)) && forall k :: k in kids <==> k in t.kids
    ensures At(SyncSrv(Tree(t.f, kids), p, srv), p + rel) == At(SyncSrv(t, p, srv), p + rel)
  {
    var cur, pass := At(srv, p + rel), KidsPass(t.f);
    SyncIs(t, p, srv, rel);
    SyncIs(Tree(t.f, kids), p, srv, rel);
    if rel != [] {
      if k :| k in kids && k.f.name == rel[0] {
        WantIn(pass, kids, k, rel, cur);
        WantIn(pass, t.kids, k, rel, cur);
      } else {
        WantOut(pass, kids, rel, cur);
        WantOut(pass, t.kids, rel, cur);
      }
    }
  }

  // ----- operations on trees -----

  /** The tree once all its data is invalid. */
  function InvalAll(t: Tree): Tree
  {
    if t.f.sts == Del || t.f.sts == Gone then t else Tree(Invalidated(t.f), InvalKids(t.kids))
  }

  function InvalKids(ks: seq<Tree>): seq<Tree>
  {
    if ks == [] then [] else [InvalAll(ks[0])] + InvalKids(ks[1..])
  }

  /** The tree once it is removed. */
  function Deleted(t: Tree): Tree
  {
    Tree(t.f.(sts := Del, wd := map[], data := []), DeletedKids(t.kids))
  }

  function DeletedKids(ks: seq<Tree>): seq<Tree>
  {
    if ks == [] then [] else [Deleted(ks[0])] + DeletedKids(ks[1..])
  }

  /** Invalidation leaves all that is to be sent as it was. */
  lemma {:induction false} InvalKeeps(t: Tree, rel: Path)
    ensures Entry(InvalAll(t), rel).Some? == Entry(t, rel).Some?
    ensures Entry(t, rel).Some? ==>
      var f, g := Entry(t, rel).value, Entry(InvalAll(t), rel).value;
      Keeps(f, g) && g.wd == f.wd && (f.sts == Data ==> g == f) && (IsSettled(f) <==> IsSettled(g)) && g.name == f.name
    decreases t
  {
    if rel != [] { InvalKeepsOf(KidsPass(t.f), t.kids, rel); }
  }

  lemma {:induction false} InvalKeepsOf(pass: Pass, ks: seq<Tree>, rel: Path)
    requires rel != []
    ensures EntryOf(pass, InvalKids(ks), rel).Some? == EntryOf(pass, ks, rel).Some?
    ensures EntryOf(pass, ks, rel).Some? ==>
      var f, g := EntryOf(pass, ks, rel).value, EntryOf(pass, InvalKids(ks), rel).value;
      Keeps(f, g) && g.wd == f.wd && (f.sts == Data ==> g == f) && (IsSettled(f) <==> IsSettled(g)) && g.name == f.name
    decreases ks
  {
    if ks != [] {
      if ks[0].f.name == rel[0] { InvalKeeps(ks[0], rel[1..]); } else { InvalKeepsOf(pass, ks[1..], rel); }
    }
  }

  lemma {:induction false} AllDeleted(t: Tree, rel: Path)
    ensures Entry(Deleted(t), rel).Some? ==> Entry(Deleted(t), rel).value.sts == Del
    ensures Entry(t, rel).Some? ==> Entry(Deleted(t), rel).Some?
    decreases t
  {
    if rel != [] { AllDeletedOf(KidsPass(t.f), t.kids, rel); }
  }

  lemma {:induction false} AllDeletedOf(pass: Pass, ks: seq<Tree>, rel: Path)
    requires rel != []
    ensures EntryOf(Every, DeletedKids(ks), rel).Some? ==> EntryOf(Every, DeletedKids(ks), rel).value.sts == Del
    ensures EntryOf(pass, ks, rel).Some? ==> EntryOf(Every, DeletedKids(ks), rel).Some?
    decreases ks
  {
    if ks != [] {
      if ks[0].f.name == rel[0] { AllDeleted(ks[0], rel[1..]); } else { AllDeletedOf(pass, ks[1..], rel); }
    }
  }

  lemma {:induction false} DeletedUnique(t: Tree)
    requires Unique(t)
    ensures Unique(Deleted(t))
    decreases t
  {
    DeletedEach(t.kids);
    var r := Deleted(t);
    forall k | k in r.kids ensures Unique(k) {
      var i :| 0 <= i < |r.kids| && r.kids[i] == k;
      assert t.kids[i] in t.kids;
      DeletedUnique(t.kids[i]);
    }
  }

  lemma {:induction false} DeletedEach(ks: seq<Tree>)
    ensures |DeletedKids(ks)| == |ks| && forall i | 0 <= i < |ks| :: DeletedKids(ks)[i] == Deleted(ks[i])
    decreases ks
  {
    if ks != [] { DeletedEach(ks[1..]); }
  }

  /** What is removed, with all that was cached below it, is not at the server after a sync. */
  lemma {:induction false} RemovedIsGone(t: Tree, srv: Server, rel: Path)
    requires Unique(t) && Entry(t, rel).Some?
    ensures At(SyncSrv(Deleted(t), [], srv), rel) == None
  {
    DeletedUnique(t);
    AllDeleted(t, rel);
    ServerHolds(Deleted(t), srv, rel);
  }

  // ----- creating files -----

  /** Must the removal of an entry be sent before another is created in its place? */
  predicate MustSync(oc: File, isdir: bool)
  {
    oc.sts == Del && oc.isdir != isdir
  }

  /** The tree and the server once a child is created in place of the i-th one. */
  function Recreated(t: Tree, p: Path, i: nat, f: File, srv: Server): (Tree, Server)
    requires i < |t.kids|
  {
    var oc := t.kids[i];
    (Tree(t.f, t.kids[i := Tree(f.(sts := Data), [])]),
     if MustSync(oc.f, f.isdir) then SyncSrv(oc, p + [oc.f.name], srv) else srv)
  }

  /** If a file takes the place of a directory removed, or the reverse, nothing below is left at the server. */
  lemma {:induction false} RecreatedAsOther(t: Tree, i: nat, f: File, srv: Server, rel: Path)
    requires i < |t.kids| && Unique(t) && t.kids[i].f.isdir != f.isdir && t.kids[i].f.sts == Del
    requires Entry(t.kids[i], rel).Some? && Entry(t.kids[i], rel).value.sts == Del
    ensures At(Recreated(t, [], i, f, srv).1, [t.kids[i].f.name] + rel) == None
  {
    var oc := t.kids[i];
    assert oc in t.kids && [] + [oc.f.name] == [oc.f.name];
    SyncIs(oc, [oc.f.name], srv, rel);
    WantEntry(oc, rel, At(srv, [oc.f.name] + rel));
  }

  /**
    But if a directory takes the place of a directory removed, the removal is forgotten: after
    all is sent, the server still has the old files below it.
   */
  lemma {:induction false} RecreatedDirKeepsOldFiles(t: Tree, i: nat, f: File, srv: Server, rel: Path)
    requires i < |t.kids| && Unique(t) && t.f.name != ".zx" && f.name == t.kids[i].f.name
    requires t.kids[i].f.isdir && f.isdir && t.kids[i].f.sts == Del && rel != []
    ensures var (t', srv') := Recreated(t, [], i, f, srv);
            At(SyncSrv(t', [], srv'), [f.name] + rel) == At(srv, [f.name] + rel)
  {
    var (t', srv') := Recreated(t, [], i, f, srv);
    var k := t'.kids[i];
    var q := [f.name] + rel;
    RecreatedUnique(t, i, k);
    assert [] + q == q && q[0] == f.name && q[1..] == rel;
    SyncIs(t', [], srv', q);
    assert k in t'.kids;
    WantIn(KidsPass(t.f), t'.kids, k, q, At(srv, q));
  }

  lemma RecreatedUnique(t: Tree, i: nat, k: Tree)
    requires i < |t.kids| && Unique(t) && k.f.name == t.kids[i].f.name && k.kids == []
    ensures Unique(Tree(t.f, t.kids[i := k]))
  {
    var ks := t.kids[i := k];
    forall c | c in ks ensures Unique(c) {
      if c != k { assert c in t.kids; }
    }
  }
}
