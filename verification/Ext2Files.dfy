/**
 A volume with many regular files: whatever calls are interleaved, each file behaves like its own
 sequence of bytes, and a block is in use exactly when a file or the volume's layout needs it.
 */
module Ext2Files {
  import opened Ext2Tree
  import opened Ext2Alloc
  import opened Ext2Volume
  import opened Ext2Inode
  import opened Ext2File
  import opened Ext2Content

  type Files = map<nat, Inode>

  type Texts = map<nat, seq<Byte>>

  // ---------- one file, by the values it depends on ----------

  ghost predicate Sound(disk: Disk, p: nat, used: set<nat>, ino: Inode) {
    && p >= 256 && |ino.slots| == SLOTS && ino.size < 0x1_0000_0000
    && var ts := SlotTrees(disk, p, ino.slots);
       && Separate(ts, p) && AllBlocks(ts) <= used && SectorsPerBlock(p) * AllCount(ts) <= ino.sectors
       && ZeroPast(disk, ts, p, ino.size)
  }

  ghost function Mine(disk: Disk, p: nat, ino: Inode): set<nat>
    requires |ino.slots| == SLOTS
  {
    AllBlocks(SlotTrees(disk, p, ino.slots))
  }

  ghost function Text(disk: Disk, p: nat, ino: Inode): seq<Byte>
    requires |ino.slots| == SLOTS && p > 0
  {
    BytesIn(disk, SlotTrees(disk, p, ino.slots), p, ino.size)
  }

  lemma SoundIs(v: Volume, ino: Inode)
    requires v.Valid() && v.alloc.Shape()
    ensures FileOk(v, ino) <==> Sound(v.disk, v.p, v.alloc.Used(), ino)
    ensures FileOk(v, ino) ==> Content(v, ino) == Text(v.disk, v.p, ino)
                               && Trees(v, ino) == SlotTrees(v.disk, v.p, ino.slots)
  {
    hide ByteIn;
    if FileOk(v, ino) { FileFacts(v, ino); }
    if Sound(v.disk, v.p, v.alloc.Used(), ino) { FileFrom(v, ino); }
  }

  lemma SoundFacts(disk: Disk, p: nat, used: set<nat>, ino: Inode)
    requires Sound(disk, p, used, ino)
    ensures p >= 256 && |ino.slots| == SLOTS && Mine(disk, p, ino) <= used
  {
  }

  /** A file without blocks is sound on every volume and holds nothing. */
  lemma EmptyFile(disk: Disk, p: nat, used: set<nat>)
    requires p >= 256
    ensures var ino := Inode(seq(SLOTS, _ => 0), 0, 0);
            Sound(disk, p, used, ino) && Mine(disk, p, ino) == {} && Text(disk, p, ino) == []
  {
    var ino := Inode(seq(SLOTS, _ => 0), 0, 0);
    var ts := SlotTrees(disk, p, ino.slots);
    assert forall i :: 0 <= i < SLOTS ==> ts[i] == Hole;
    NothingHeld(ts);
    forall i: nat ensures ByteIn(disk, ts, p, i) == 0 { HolesOnly(ts, p, Lb(p, i)); }
  }

  lemma {:induction false} NothingHeld(ts: seq<Tree>)
    requires forall i :: 0 <= i < |ts| ==> ts[i] == Hole
    ensures AllBlocks(ts) == {} && AllCount(ts) == 0
  {
    if ts != [] { NothingHeld(ts[..|ts| - 1]); }
  }

  lemma HolesOnly(ts: seq<Tree>, p: nat, lb: nat)
    requires |ts| == SLOTS && p > 0 && forall i :: 0 <= i < SLOTS ==> ts[i] == Hole
    ensures MapIn(ts, p, lb) == 0
  {
  }

  // ---------- all files ----------

  ghost predicate Disjoint(disk: Disk, p: nat, a: Inode, b: Inode) {
    |a.slots| == SLOTS && |b.slots| == SLOTS && Mine(disk, p, a) !! Mine(disk, p, b)
  }

  // Every file is sound and no block belongs to two of them.
  ghost predicate Apart(disk: Disk, p: nat, used: set<nat>, files: Files) {
    && (forall k <- files :: Sound(disk, p, used, files[k]))
    && (forall j, k :: j in files && k in files && j != k ==> Disjoint(disk, p, files[j], files[k]))
  }

  ghost function Owned(disk: Disk, p: nat, files: Files): set<nat>
    requires forall k <- files :: |files[k].slots| == SLOTS
  {
    set k, b | k in files && b in Mine(disk, p, files[k]) :: b
  }

  ghost function TextsOf(disk: Disk, p: nat, files: Files): Texts
    requires p > 0 && forall k <- files :: |files[k].slots| == SLOTS
  {
    map k | k in files :: Text(disk, p, files[k])
  }

  lemma ApartFacts(disk: Disk, p: nat, used: set<nat>, files: Files)
    requires Apart(disk, p, used, files)
    ensures forall k <- files :: |files[k].slots| == SLOTS && Mine(disk, p, files[k]) <= used
  {
    hide Sound, Disjoint, Mine;
    forall k <- files ensures |files[k].slots| == SLOTS && Mine(disk, p, files[k]) <= used {
      SoundFacts(disk, p, used, files[k]);
    }
  }

  // A file next to the one that changed.
  lemma Bystander(d0: Disk, used0: set<nat>, d1: Disk, used1: set<nat>, p: nat, ino: Inode, mine0: set<nat>,
      mine1: set<nat>)
    requires Sound(d0, p, used0, ino) && Kept(d0, used0, mine0, d1, used1, mine1) && Mine(d0, p, ino) !! mine0
    ensures Sound(d1, p, used1, ino) && Mine(d1, p, ino) == Mine(d0, p, ino) && Mine(d1, p, ino) !! mine1
    ensures Text(d1, p, ino) == Text(d0, p, ino)
  {
    hide ByteIn, Separate, AllBlocks, SlotTrees, AllCount, Kept;
    var t0, t1 := SlotTrees(d0, p, ino.slots), SlotTrees(d1, p, ino.slots);
    forall i: nat ensures t1 == t0 && AllBlocks(t1) <= used1 - mine1 && ByteIn(d1, t1, p, i) == ByteIn(d0, t0, p, i) {
      OtherFileKept(d0, used0, mine0, d1, used1, mine1, p, ino.slots, i);
    }
    OtherFileKept(d0, used0, mine0, d1, used1, mine1, p, ino.slots, 0);
  }

  // One file changes and nothing outside it does: still apart, and nothing is stranded.
  lemma OneChanged(d0: Disk, used0: set<nat>, d1: Disk, used1: set<nat>, p: nat, files: Files, k: nat, ino: Inode)
    requires Apart(d0, p, used0, files) && k in files && |files[k].slots| == |ino.slots| == SLOTS
    requires Sound(d1, p, used1, ino) && Kept(d0, used0, Mine(d0, p, files[k]), d1, used1, Mine(d1, p, ino))
    ensures Apart(d1, p, used1, files[k := ino]) && p > 0
    ensures forall j <- files :: |files[j].slots| == SLOTS
    ensures TextsOf(d1, p, files[k := ino]) == TextsOf(d0, p, files)[k := Text(d1, p, ino)]
    ensures used1 - Owned(d1, p, files[k := ino]) == used0 - Owned(d0, p, files)
  {
    hide Sound, Mine, Text, Kept, Disjoint;
    ApartFacts(d0, p, used0, files);
    SoundFacts(d1, p, used1, ino);
    var mine0, mine1, now := Mine(d0, p, files[k]), Mine(d1, p, ino), files[k := ino];
    forall j <- files | j != k
      ensures Sound(d1, p, used1, files[j]) && Mine(d1, p, files[j]) == Mine(d0, p, files[j])
              && Mine(d1, p, files[j]) !! mine1
      ensures Text(d1, p, files[j]) == Text(d0, p, files[j])
    {
      DisjointIs(d0, p, files[j], files[k]);
      Bystander(d0, used0, d1, used1, p, files[j], mine0, mine1);
    }
    forall i, j | i in now && j in now && i != j ensures Disjoint(d1, p, now[i], now[j]) {
      if i in files && j in files && i != k && j != k {
        assert Disjoint(d0, p, files[i], files[j]); DisjointIs(d0, p, files[i], files[j]);
      }
      DisjointIs(d1, p, now[i], now[j]);
    }
    KeptLoose(d0, used0, mine0, d1, used1, mine1);
    SameLoose(d0, used0, d1, used1, p, files, k, ino);
  }

  lemma DisjointIs(disk: Disk, p: nat, a: Inode, b: Inode)
    requires |a.slots| == SLOTS && |b.slots| == SLOTS
    ensures Disjoint(disk, p, a, b) <==> Mine(disk, p, a) !! Mine(disk, p, b)
  {
  }

  lemma KeptLoose(d0: Disk, used0: set<nat>, mine0: set<nat>, d1: Disk, used1: set<nat>, mine1: set<nat>)
    requires Kept(d0, used0, mine0, d1, used1, mine1)
    ensures used1 - mine1 == used0 - mine0
  {
  }

  lemma SameLoose(d0: Disk, used0: set<nat>, d1: Disk, used1: set<nat>, p: nat, files: Files, k: nat, ino: Inode)
    requires k in files && |ino.slots| == SLOTS && forall j <- files :: |files[j].slots| == SLOTS
    requires used1 - Mine(d1, p, ino) == used0 - Mine(d0, p, files[k])
    requires forall j <- files :: j != k ==> Mine(d1, p, files[j]) == Mine(d0, p, files[j])
    ensures used1 - Owned(d1, p, files[k := ino]) == used0 - Owned(d0, p, files)
  {
    hide Mine;
    var now := files[k := ino];
    forall b ensures b in used1 - Owned(d1, p, now) <==> b in used0 - Owned(d0, p, files) {
      assert b in used1 - Mine(d1, p, ino) <==> b in used0 - Mine(d0, p, files[k]);
      assert now[k] == ino && (b in Mine(d1, p, now[k]) ==> b in Owned(d1, p, now));
      assert b in Mine(d0, p, files[k]) ==> b in Owned(d0, p, files);
      if b in Owned(d1, p, now) && b !in Mine(d1, p, ino) {
        var j :| j in now && b in Mine(d1, p, now[j]);
        assert b in Mine(d0, p, files[j]);
      }
      if b in Owned(d0, p, files) && b !in Mine(d0, p, files[k]) {
        var j :| j in files && b in Mine(d0, p, files[j]);
        assert now[j] == files[j] && b in Mine(d1, p, now[j]);
      }
    }
  }

  // ---------- creating and deleting ----------

  lemma {:induction false} TrimNothing(t: Tree, p: nat, level: nat, base: nat)
    requires p > 0 && Proper(t, p, level)
    ensures Trim(t, p, level, base, 0) == Hole
    decreases level
  {
    if t.Node? {
      var kids := TrimAll(t.kids, p, level - 1, base, 0);
      forall i | 0 <= i < |kids| ensures kids[i] == Hole {
        KidProper(t.kids, p, level - 1, i);
        TrimNothing(t.kids[i], p, level - 1, NthBase(p, level - 1, base, i));
      }
    }
  }

  lemma {:induction false} KidProper(ts: seq<Tree>, p: nat, level: nat, i: nat)
    requires AllProper(ts, p, level) && i < |ts|
    ensures Proper(ts[i], p, level)
  {
    if i < |ts| - 1 { KidProper(ts[..|ts| - 1], p, level, i); }
  }

  // Trimming an inode to nothing leaves only holes.
  lemma TrimmedAway(disk: Disk, ts: seq<Tree>, p: nat)
    requires p > 0 && Separate(ts, p)
    ensures var rs := TrimSlots(ts, p, 0);
            AllBlocks(rs) == {} && AllCount(rs) == 0 && forall n: nat :: ZeroPast(disk, rs, p, n)
  {
    var rs := TrimSlots(ts, p, 0);
    forall i | 0 <= i < SLOTS ensures rs[i] == Hole { TrimNothing(ts[i], p, Level(i), SlotStart(p, i)); }
    NothingHeld(rs);
    hide Separate, TrimSlots;
    forall i: nat ensures ByteIn(disk, rs, p, i) == 0 { HolesOnly(rs, p, Lb(p, i)); }
  }

  /** What inode_release_blocks does: every block of the file, and no other, becomes free. */
  method Release(v: Volume, ino: Inode) returns (out: Inode)
    requires FileOk(v, ino)
    modifies v, v.alloc
    ensures v.Valid() && v.alloc.Shape() && FileOk(v, out) && AllBlocks(Trees(v, out)) == {}
    ensures Kept(old(v.disk), old(v.alloc.Used()), AllBlocks(old(Trees(v, ino))), v.disk, v.alloc.Used(), {})
  {
    hide *;
    FileFacts(v, ino);
    OkFacts(v, ino);
    ghost var d0, ts, used0 := v.disk, Trees(v, ino), v.alloc.Used();
    out := TrimBlocks(v, ino, 0);
    v.Shaped();
    OkFacts(v, out);
    TrimmedAway(v.disk, ts, v.p);
    SameOutsideStart(v.disk, AllBlocks(Trees(v, out)));
    KeptTrimmed(d0, v.disk, v.disk, ts, Trees(v, out), v.p, used0, v.alloc.Used());
    FileFrom(v, out);
  }

  // A file without blocks comes or goes.
  lemma Joined(disk: Disk, p: nat, used: set<nat>, files: Files, k: nat, ino: Inode)
    requires Apart(disk, p, used, files) && k !in files && Sound(disk, p, used, ino) && Mine(disk, p, ino) == {}
    ensures Apart(disk, p, used, files[k := ino]) && forall j <- files :: |files[j].slots| == SLOTS
    ensures Owned(disk, p, files[k := ino]) == Owned(disk, p, files)
    ensures TextsOf(disk, p, files[k := ino]) == TextsOf(disk, p, files)[k := Text(disk, p, ino)]
  {
    hide Sound, Mine, Text;
    ApartFacts(disk, p, used, files);
    SoundFacts(disk, p, used, ino);
    var now := files[k := ino];
    forall b ensures b in Owned(disk, p, now) <==> b in Owned(disk, p, files) {
      if b in Owned(disk, p, files) {
        var j :| j in files && b in Mine(disk, p, files[j]);
        assert b in Mine(disk, p, now[j]);
      }
    }
  }

  lemma Parted(disk: Disk, p: nat, used: set<nat>, files: Files, k: nat)
    requires Apart(disk, p, used, files) && k in files && |files[k].slots| == SLOTS && Mine(disk, p, files[k]) == {}
    ensures Apart(disk, p, used, files - {k}) && p > 0 && forall j <- files :: |files[j].slots| == SLOTS
    ensures Owned(disk, p, files - {k}) == Owned(disk, p, files)
    ensures TextsOf(disk, p, files - {k}) == TextsOf(disk, p, files) - {k}
  {
    hide Sound, Mine, Text;
    ApartFacts(disk, p, used, files);
    SoundFacts(disk, p, used, files[k]);
    var now := files - {k};
    forall b ensures b in Owned(disk, p, now) <==> b in Owned(disk, p, files) {
      if b in Owned(disk, p, files) {
        var j :| j in files && b in Mine(disk, p, files[j]);
        assert b in Mine(disk, p, now[j]);
      }
    }
  }

  // ---------- any interleaving ----------

  datatype Call = Create(file: nat) | On(file: nat, request: Request) | Delete(file: nat)

  // What a call does to the texts of the files, given its reply.
  function Applied(texts: Texts, call: Call, reply: nat): Texts {
    match call
    case Create(k) => if k in texts then texts else texts[k := []]
    case On(k, request) => if k in texts then texts[k := Effect(texts[k], request, reply)] else texts
    case Delete(k) => texts - {k}
  }

  function Told(texts: Texts, calls: seq<Call>, replies: seq<nat>): Texts
    requires |calls| == |replies|
  {
    if calls == [] then texts
    else var last := |calls| - 1; Applied(Told(texts, calls[..last], replies[..last]), calls[last], replies[last])
  }

  lemma ToldNext(texts: Texts, calls: seq<Call>, i: nat, replies: seq<nat>, reply: nat)
    requires i < |calls| && |replies| == i
    ensures Told(texts, calls[..i + 1], replies + [reply]) == Applied(Told(texts, calls[..i], replies), calls[i], reply)
  {
    assert calls[..i + 1][..i] == calls[..i] && (replies + [reply])[..i] == replies;
  }

  lemma ToldStart(texts: Texts, calls: seq<Call>)
    ensures Told(texts, calls[..0], []) == texts
  {
  }

  ghost predicate Good(v: Volume, files: Files)
    reads v, v.alloc
  {
    v.Valid() && v.p >= 256 && Apart(v.disk, v.p, v.alloc.Used(), files)
  }

  lemma GoodFacts(v: Volume, files: Files)
    requires Good(v, files)
    ensures v.Valid() && v.alloc.Shape() && v.p >= 256 && Apart(v.disk, v.p, v.alloc.Used(), files)
    ensures forall k <- files :: |files[k].slots| == SLOTS && FileOk(v, files[k])
  {
    hide Sound, ByteIn, FileOk;
    ApartFacts(v.disk, v.p, v.alloc.Used(), files);
    forall k <- files ensures FileOk(v, files[k]) { SoundIs(v, files[k]); }
  }

  lemma GoodFrom(v: Volume, files: Files)
    requires v.Valid() && v.alloc.Shape() && v.p >= 256 && Apart(v.disk, v.p, v.alloc.Used(), files)
    ensures Good(v, files)
  {
  }

  lemma ApplyOn(texts: Texts, k: nat, request: Request, reply: nat)
    requires k in texts
    ensures Applied(texts, On(k, request), reply) == texts[k := Effect(texts[k], request, reply)]
  {
  }

  // One write or truncation.
  method Change(v: Volume, ino: Inode, goal: nat, request: Request) returns (out: Inode, reply: nat)
    requires FileOk(v, ino)
    modifies v, v.alloc
    ensures FileOk(v, out) && Content(v, out) == Effect(old(Content(v, ino)), request, reply)
    ensures Kept(old(v.disk), old(v.alloc.Used()), AllBlocks(old(Trees(v, ino))), v.disk, v.alloc.Used(),
                 AllBlocks(Trees(v, out)))
  {
    hide *;
    FileFacts(v, ino);
    var replies;
    out, replies := Replay(v, ino, goal, [request]);
    reply := replies[0];
    HistoryOne(old(Content(v, ino)), request, replies);
  }

  lemma HistoryOne(c: seq<Byte>, request: Request, replies: seq<nat>)
    requires |replies| == 1
    ensures History(c, [request], replies) == Effect(c, request, replies[0])
  {
    HistoryNext(c, [request], 0, [], replies[0]);
    assert [request][..1] == [request] && [request][..0] == [] && [] + [replies[0]] == replies;
    assert History(c, [], []) == c;
  }

  /**
   Any interleaving of creating, writing, truncating and deleting files: each file's text is what
   its own calls make of it, files never share a block, and the blocks in use that belong to no
   file are the same as before, so none is lost and none is given away twice.
   */
  method Session(v: Volume, files: Files, goal: nat, calls: seq<Call>) returns (out: Files, replies: seq<nat>)
    requires Good(v, files)
    modifies v, v.alloc
    ensures Good(v, out) && |replies| == |calls|
    ensures forall k <- files :: |files[k].slots| == SLOTS
    ensures forall k <- out :: |out[k].slots| == SLOTS
    ensures v.p > 0 && TextsOf(v.disk, v.p, out) == Told(old(TextsOf(v.disk, v.p, files)), calls, replies)
    ensures v.alloc.Shape() && old(v.alloc.Shape())
    ensures v.alloc.Used() - Owned(v.disk, v.p, out) == old(v.alloc.Used() - Owned(v.disk, v.p, files))
  {
    hide *;
    GoodFacts(v, files);
    ghost var texts, loose := TextsOf(v.disk, v.p, files), v.alloc.Used() - Owned(v.disk, v.p, files);
    out, replies := files, [];
    ToldStart(texts, calls);
    for i := 0 to |calls|
      invariant Good(v, out) && v.Valid() && v.alloc.Shape() && v.p >= 256 && |replies| == i && forall k <- out ::
                |out[k].slots| == SLOTS
      invariant TextsOf(v.disk, v.p, out) == Told(texts, calls[..i], replies)
      invariant v.alloc.Used() - Owned(v.disk, v.p, out) == loose
    {
      var reply;
      out, reply := Step(v, out, goal, calls[i]);
      ToldNext(texts, calls, i, replies, reply);
      replies := replies + [reply];
    }
    assert calls[..|calls|] == calls;
  }

  method Step(v: Volume, files: Files, goal: nat, call: Call) returns (out: Files, reply: nat)
    requires Good(v, files) && v.Valid() && v.alloc.Shape() && v.p >= 256 && forall k <- files ::
             |files[k].slots| == SLOTS
    modifies v, v.alloc
    ensures Good(v, out) && v.Valid() && v.alloc.Shape() && forall k <- out :: |out[k].slots| == SLOTS
    ensures TextsOf(v.disk, v.p, out) == Applied(old(TextsOf(v.disk, v.p, files)), call, reply)
    ensures v.alloc.Used() - Owned(v.disk, v.p, out) == old(v.alloc.Used() - Owned(v.disk, v.p, files))
  {
    hide *;
    GoodFacts(v, files);
    ghost var d0, used0, texts := v.disk, v.alloc.Used(), TextsOf(v.disk, v.p, files);
    AppliedIs(texts, call, d0, v.p, files);
    out, reply := files, 0;
    var k := call.file;
    match call
    case Create(_) =>
      if k in files { return; }
      var ino := Inode(seq(SLOTS, _ => 0), 0, 0);
      EmptyFile(d0, v.p, used0);
      Joined(d0, v.p, used0, files, k, ino);
      out := files[k := ino];
      GoodFrom(v, out);
      GoodFacts(v, out);
    case On(_, request) =>
      if k !in files { return; }
      SoundIs(v, files[k]);
      MineIs(v, files[k]);
      var ino;
      ino, reply := Change(v, files[k], goal, request);
      FileFacts(v, ino);
      SoundIs(v, ino);
      MineIs(v, ino);
      OneChanged(d0, used0, v.disk, v.alloc.Used(), v.p, files, k, ino);
      out := files[k := ino];
      GoodFrom(v, out);
      GoodFacts(v, out);
      ApplyOn(texts, k, request, reply);
    case Delete(_) =>
      if k !in files { return; }
      SoundIs(v, files[k]);
      MineIs(v, files[k]);
      var ino := Release(v, files[k]);
      FileFacts(v, ino);
      SoundIs(v, ino);
      MineIs(v, ino);
      OneChanged(d0, used0, v.disk, v.alloc.Used(), v.p, files, k, ino);
      Parted(v.disk, v.p, v.alloc.Used(), files[k := ino], k);
      assert files[k := ino] - {k} == files - {k};
      assert texts[k := Text(v.disk, v.p, ino)] - {k} == texts - {k};
      out := files - {k};
      GoodFrom(v, out);
      GoodFacts(v, out);
  }

  lemma MineIs(v: Volume, ino: Inode)
    requires |ino.slots| == SLOTS
    ensures Mine(v.disk, v.p, ino) == AllBlocks(Trees(v, ino))
  {
  }

  // Calls about files that are not there, or are there already, change nothing.
  lemma AppliedIs(texts: Texts, call: Call, disk: Disk, p: nat, files: Files)
    requires p > 0 && (forall k <- files :: |files[k].slots| == SLOTS) && texts == TextsOf(disk, p, files)
    ensures texts.Keys == files.Keys && (call.file in files ==> texts[call.file] == Text(disk, p, files[call.file]))
    ensures forall reply :: Applied(texts, call, reply) ==
                            if call.Create? then (if call.file in texts then texts else texts[call.file := []])
                            else if call.file !in texts then texts
                            else if call.Delete? then texts - {call.file}
                            else texts[call.file := Effect(texts[call.file], call.request, reply)]
  {
    hide Text, Effect;
  }
}
