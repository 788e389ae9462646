/**
 The inode hash table: buckets that are chains sorted by inode number, searched
 with an early exit, and why they behave as a map from inode to dentry.
 */
module InodeIndex {
  import opened Wrappers
  import Dentry

  datatype Node = Node(inode: int, dentry: Dentry.Ptr)

  type Chain = seq<Node>

  const UINT64_SIZE := 0x1_0000_0000_0000_0000

  function BucketOf(inode: int, capacity: nat): (b: nat)
    requires capacity > 0
    ensures b < capacity
  {
    inode % UINT64_SIZE % capacity
  }

  ghost predicate Ascending(chain: Chain) {
    forall i, j :: 0 <= i < j < |chain| ==> chain[i].inode < chain[j].inode
  }

  /** Every chain ascends and holds only inodes of its bucket. */
  ghost predicate Hashed(table: seq<Chain>) {
    && |table| > 0
    && (forall b :: 0 <= b < |table| ==> Ascending(table[b]))
    && (forall b, i :: 0 <= b < |table| && 0 <= i < |table[b]| ==> BucketOf(table[b][i].inode, |table|) == b)
  }

  /** What the table holds for an inode, wherever it may be. */
  ghost predicate Holds(table: seq<Chain>, inode: int, dentry: Dentry.Ptr) {
    exists b :: 0 <= b < |table| && Node(inode, dentry) in table[b]
  }

  ghost predicate Absent(table: seq<Chain>, inode: int) {
    forall dentry :: !Holds(table, inode, dentry)
  }

  lemma OnlyInItsBucket(table: seq<Chain>, inode: int, dentry: Dentry.Ptr)
    requires Hashed(table)
    ensures Holds(table, inode, dentry) <==> Node(inode, dentry) in table[BucketOf(inode, |table|)]
  {
    if Holds(table, inode, dentry) {
      var b :| 0 <= b < |table| && Node(inode, dentry) in table[b];
      var i :| 0 <= i < |table[b]| && table[b][i] == Node(inode, dentry);
      assert BucketOf(table[b][i].inode, |table|) == b;
    }
  }

  /** An inode has at most one dentry. */
  lemma HoldsOne(table: seq<Chain>, inode: int, d1: Dentry.Ptr, d2: Dentry.Ptr)
    requires Hashed(table) && Holds(table, inode, d1) && Holds(table, inode, d2)
    ensures d1 == d2
  {
    OnlyInItsBucket(table, inode, d1);
    OnlyInItsBucket(table, inode, d2);
    var chain := table[BucketOf(inode, |table|)];
    var i :| 0 <= i < |chain| && chain[i] == Node(inode, d1);
    var j :| 0 <= j < |chain| && chain[j] == Node(inode, d2);
  }

  /** What one bucket's change does to the whole table. */
  lemma BucketChange(table: seq<Chain>, b: nat, chain: Chain, inode: int, dentry: Dentry.Ptr)
    requires Hashed(table) && b < |table| && Hashed(table[b := chain])
    ensures Holds(table[b := chain], inode, dentry) <==>
              if BucketOf(inode, |table|) == b then Node(inode, dentry) in chain else Holds(table, inode, dentry)
  {
    OnlyInItsBucket(table, inode, dentry);
    OnlyInItsBucket(table[b := chain], inode, dentry);
  }

  lemma NotBefore(chain: Chain, k: nat, inode: int, dentry: Dentry.Ptr)
    requires Ascending(chain) && k <= |chain|
    requires (forall i :: 0 <= i < k ==> chain[i].inode < inode) && (k < |chain| ==> chain[k].inode > inode)
    ensures Node(inode, dentry) !in chain
  {
  }

  class InodeTable {
    const buckets: array<Chain>

    ghost predicate Valid()
      reads this, buckets
    {
      Hashed(buckets[..])
    }

    constructor (capacity: nat)
      requires capacity > 0
      ensures Valid() && fresh(buckets) && forall inode :: Absent(buckets[..], inode)
    {
      buckets := new Chain[capacity](_ => []);
    }

    /** Where an inode is or would go: the search stops at the first inode that
        is not smaller. */
    method Search(b: nat, inode: int) returns (k: nat, found: bool)
      requires Valid() && b < buckets.Length
      ensures k <= |buckets[b]| && forall i :: 0 <= i < k ==> buckets[b][i].inode < inode
      ensures found <==> k < |buckets[b]| && buckets[b][k].inode == inode
      ensures !found && k < |buckets[b]| ==> buckets[b][k].inode > inode
    {
      assert buckets[..][b] == buckets[b];
      k := 0;
      while k < |buckets[b]|
        invariant k <= |buckets[b]| && forall i :: 0 <= i < k ==> buckets[b][i].inode < inode
      {
        if buckets[b][k].inode == inode {
          return k, true;
        } else if buckets[b][k].inode > inode {
          break;
        }
        k := k + 1;
      }
      found := false;
    }

    /** Finds a dentry exactly when the table holds it. */
    method Find(inode: int) returns (r: Option<Dentry.Ptr>)
      requires Valid()
      ensures r.Some? ==> Holds(buckets[..], inode, r.value)
      ensures r.None? ==> Absent(buckets[..], inode)
    {
      var b := BucketOf(inode, buckets.Length);
      var k, found := Search(b, inode);
      assert buckets[..][b] == buckets[b];
      if found {
        assert Node(inode, buckets[b][k].dentry) == buckets[..][b][k];
        return Some(buckets[b][k].dentry);
      }
      forall dentry
        ensures !Holds(buckets[..], inode, dentry)
      {
        OnlyInItsBucket(buckets[..], inode, dentry);
        NotBefore(buckets[b], k, inode, dentry);
      }
      return None;
    }

    /** Adds a dentry under a new inode; a duplicate changes nothing. */
    method Add(inode: int, dentry: Dentry.Ptr) returns (code: Dentry.Code)
      requires Valid()
      modifies buckets
      ensures Valid()
      ensures code == Dentry.Success <==> Absent(old(buckets[..]), inode)
      ensures code != Dentry.Success ==> code == Dentry.Exists && buckets[..] == old(buckets[..])
      ensures code == Dentry.Success ==> forall i, d ::
                Holds(buckets[..], i, d) <==> (i == inode && d == dentry) || Holds(old(buckets[..]), i, d)
    {
      var b := BucketOf(inode, buckets.Length);
      var k, found := Search(b, inode);
      ghost var table := buckets[..];
      assert table[b] == buckets[b];
      if found {
        assert Node(inode, buckets[b][k].dentry) == table[b][k];
        assert Holds(table, inode, buckets[b][k].dentry);
        return Dentry.Exists;
      }
      forall d
        ensures !Holds(table, inode, d)
      {
        OnlyInItsBucket(table, inode, d);
        NotBefore(buckets[b], k, inode, d);
      }
      var chain := buckets[b][..k] + [Node(inode, dentry)] + buckets[b][k..];
      InsertHashed(table, b, k, Node(inode, dentry));
      buckets[b] := chain;
      assert buckets[..] == table[b := chain];
      forall i, d
        ensures Holds(buckets[..], i, d) <==> (i == inode && d == dentry) || Holds(table, i, d)
      {
        InsertHolds(table, b, k, Node(inode, dentry), i, d);
      }
      return Dentry.Success;
    }

    /** Takes an inode out; a missing one changes nothing. */
    method Delete(inode: int) returns (code: Dentry.Code)
      requires Valid()
      modifies buckets
      ensures Valid()
      ensures code == Dentry.NoEntry <==> Absent(old(buckets[..]), inode)
      ensures code != Dentry.NoEntry ==> code == Dentry.Success
      ensures forall i, d :: Holds(buckets[..], i, d) <==> i != inode && Holds(old(buckets[..]), i, d)
    {
      var b := BucketOf(inode, buckets.Length);
      var k, found := Search(b, inode);
      ghost var table := buckets[..];
      assert table[b] == buckets[b];
      if !found {
        forall d
          ensures !Holds(table, inode, d)
        {
          OnlyInItsBucket(table, inode, d);
          NotBefore(buckets[b], k, inode, d);
        }
        return Dentry.NoEntry;
      }
      assert Node(inode, buckets[b][k].dentry) == table[b][k];
      assert Holds(table, inode, buckets[b][k].dentry);
      var chain := buckets[b][..k] + buckets[b][k + 1..];
      DeleteHashed(table, b, k);
      buckets[b] := chain;
      assert buckets[..] == table[b := chain];
      forall i, d
        ensures Holds(buckets[..], i, d) <==> i != inode && Holds(table, i, d)
      {
        DeleteHolds(table, b, k, i, d);
      }
      return Dentry.Success;
    }
  }

  lemma InsertAscending(chain: Chain, k: nat, node: Node)
    requires Ascending(chain) && k <= |chain|
    requires (forall i :: 0 <= i < k ==> chain[i].inode < node.inode) && (k < |chain| ==> chain[k].inode > node.inode)
    ensures Ascending(chain[..k] + [node] + chain[k..])
  {
    var c := chain[..k] + [node] + chain[k..];
    forall i, j | 0 <= i < j < |c|
      ensures c[i].inode < c[j].inode
    {
      if j > k {
        assert c[j] == chain[j - 1];
      }
      if i > k {
        assert c[i] == chain[i - 1];
      }
    }
  }

  lemma InsertHashed(table: seq<Chain>, b: nat, k: nat, node: Node)
    requires Hashed(table) && b < |table| && BucketOf(node.inode, |table|) == b && k <= |table[b]|
    requires forall i :: 0 <= i < k ==> table[b][i].inode < node.inode
    requires k < |table[b]| ==> table[b][k].inode > node.inode
    ensures Hashed(table[b := table[b][..k] + [node] + table[b][k..]])
  {
    var chain := table[b][..k] + [node] + table[b][k..];
    var table': seq<Chain> := table[b := chain];
    InsertAscending(table[b], k, node);
    forall c, i | 0 <= c < |table'| && 0 <= i < |table'[c]|
      ensures BucketOf(table'[c][i].inode, |table'|) == c
    {
      if c == b {
        assert chain[i] == if i < k then table[b][i] else if i == k then node else table[b][i - 1];
      }
    }
  }

  lemma InsertHolds(table: seq<Chain>, b: nat, k: nat, node: Node, inode: int, dentry: Dentry.Ptr)
    requires Hashed(table) && b < |table| && BucketOf(node.inode, |table|) == b && k <= |table[b]|
    requires Hashed(table[b := table[b][..k] + [node] + table[b][k..]])
    ensures Holds(table[b := table[b][..k] + [node] + table[b][k..]], inode, dentry) <==>
              Node(inode, dentry) == node || Holds(table, inode, dentry)
  {
    var chain := table[b][..k] + [node] + table[b][k..];
    BucketChange(table, b, chain, inode, dentry);
    OnlyInItsBucket(table, inode, dentry);
    assert table[b] == table[b][..k] + table[b][k..];
    assert Node(inode, dentry) in chain <==> Node(inode, dentry) == node || Node(inode, dentry) in table[b];
  }

  lemma DeleteHashed(table: seq<Chain>, b: nat, k: nat)
    requires Hashed(table) && b < |table| && k < |table[b]|
    ensures Hashed(table[b := table[b][..k] + table[b][k + 1..]])
  {
    var chain := table[b][..k] + table[b][k + 1..];
    var table': seq<Chain> := table[b := chain];
    assert forall i :: 0 <= i < |chain| ==> chain[i] == table[b][if i < k then i else i + 1];
    assert Ascending(table[b]);
    assert Ascending(chain);
    forall c, i | 0 <= c < |table'| && 0 <= i < |table'[c]|
      ensures BucketOf(table'[c][i].inode, |table'|) == c
    {
      if c == b {
        assert BucketOf(table[b][if i < k then i else i + 1].inode, |table|) == b;
      }
    }
  }

  lemma DeleteHolds(table: seq<Chain>, b: nat, k: nat, inode: int, dentry: Dentry.Ptr)
    requires Hashed(table) && b < |table| && k < |table[b]|
    requires Hashed(table[b := table[b][..k] + table[b][k + 1..]])
    ensures Holds(table[b := table[b][..k] + table[b][k + 1..]], inode, dentry) <==>
              inode != table[b][k].inode && Holds(table, inode, dentry)
  {
    var old_, chain := table[b], table[b][..k] + table[b][k + 1..];
    BucketChange(table, b, chain, inode, dentry);
    OnlyInItsBucket(table, inode, dentry);
    assert BucketOf(old_[k].inode, |table|) == b;
    assert Ascending(old_);
    assert old_ == old_[..k] + [old_[k]] + old_[k + 1..];
    assert forall i :: 0 <= i < |chain| ==> chain[i] == old_[if i < k then i else i + 1];
    assert forall i :: 0 <= i < |chain| ==> chain[i].inode != old_[k].inode;
    assert Node(inode, dentry) in chain <==> inode != old_[k].inode && Node(inode, dentry) in old_;
  }
}
