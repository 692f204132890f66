/** What a file-system operation must pass to log_write: every block it changes. */
module FsLogging {
  import opened Blocks
  import opened FsState

  /** What is on the disk, apart from the log: data blocks, bitmap blocks and inodes. */
  datatype Media = Media(bmapstart: nat, inodestart: nat, disk: seq<Block>, bitmap: seq<seq<bv8>>, dinode: seq<Inode>)

  /** Between two moments nothing has been taken off the list of logged blocks, and each data block,
      each bitmap block and the block of each inode that differs is on it. */
  ghost predicate Logs(m0: Media, l0: set<int>, m: Media, l: set<int>) {
    && m.bmapstart == m0.bmapstart && m.inodestart == m0.inodestart
    && |m.disk| == |m0.disk| && |m.bitmap| == |m0.bitmap| && |m.dinode| == |m0.dinode|
    && l0 <= l
    && (forall b :: 0 <= b < |m.disk| && m.disk[b] != m0.disk[b] ==> b in l)
    && (forall k :: 0 <= k < |m.bitmap| && m.bitmap[k] != m0.bitmap[k] ==> m.bmapstart + k in l)
    && (forall i :: 0 <= i < |m.dinode| && m.dinode[i] != m0.dinode[i] ==> m.inodestart + i / IPB in l)
  }

  lemma LogsSelf(m: Media, l: set<int>)
    ensures Logs(m, l, m, l)
  {
  }

  lemma LogsThen(m0: Media, l0: set<int>, m1: Media, l1: set<int>, m: Media, l: set<int>)
    requires Logs(m0, l0, m1, l1) && Logs(m1, l1, m, l)
    ensures Logs(m0, l0, m, l)
  {
  }

  lemma LogsBlock(m: Media, l: set<int>, b: nat, x: Block)
    requires b < |m.disk|
    ensures Logs(m, l, m.(disk := m.disk[b := x]), l + {b})
  {
  }

  lemma LogsBits(m: Media, l: set<int>, k: nat, x: seq<bv8>)
    requires k < |m.bitmap|
    ensures Logs(m, l, m.(bitmap := m.bitmap[k := x]), l + {m.bmapstart + k})
  {
  }

  lemma LogsAlloc(m: Media, l: set<int>, k: nat, x: seq<bv8>, b: nat, y: Block)
    requires k < |m.bitmap| && b < |m.disk|
    ensures Logs(m, l, m.(bitmap := m.bitmap[k := x], disk := m.disk[b := y]), l + {m.bmapstart + k, b})
  {
  }

  lemma LogsInode(m: Media, l: set<int>, i: nat, x: Inode)
    requires i < |m.dinode|
    ensures Logs(m, l, m.(dinode := m.dinode[i := x]), l + {m.inodestart + i / IPB})
  {
  }

  /** Operations one after the other, each with its own list. */
  ghost predicate AllLog(media: seq<Media>, ops: seq<set<int>>) {
    |media| == |ops| + 1 && forall k :: 0 <= k < |ops| ==> Logs(media[k], {}, media[k + 1], ops[k])
  }

  lemma AllLogNone(m: Media)
    ensures AllLog([m], [])
  {
  }

  lemma AllLogSnoc(media: seq<Media>, ops: seq<set<int>>, m: Media, l: set<int>)
    requires AllLog(media, ops) && Logs(media[|ops|], {}, m, l)
    ensures AllLog(media + [m], ops + [l])
    ensures |media| == |ops| + 1
  {
    hide Logs;
    var ms, os := media + [m], ops + [l];
    forall k | 0 <= k < |os| ensures Logs(ms[k], {}, ms[k + 1], os[k]) {
      if k < |ops| {
        assert ms[k] == media[k] && ms[k + 1] == media[k + 1] && os[k] == ops[k];
      }
    }
  }
}
