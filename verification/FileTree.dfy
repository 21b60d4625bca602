/** The cleanup-transaction records and the file system they act on. */
module Transactions {
  import opened Paths

  datatype ItemStatus = Pending | Moved | Skipped | Failed | Restored | Purged

  datatype TransactionStatus =
    | Running
    | Quarantined | PartiallyQuarantined
    | AllRestored | PartiallyRestored
    | AllPurged | PartiallyPurged
    | TransactionFailed

  /** domain.CleanupTransactionItem; [] stands for a path that is not set. */
  datatype Item = Item(id: string, originalPath: Path, quarantinePath: Path, manifestPath: Path, status: ItemStatus)

  const MANIFEST_VERSION := 1

  datatype Manifest = Manifest(schemaVersion: int, transactionID: string, items: seq<Item>)

  /** Everything about an item but its status, which is all a manifest must keep to undo a move. */
  predicate SamePlace(a: Item, b: Item) {
    a.id == b.id && a.originalPath == b.originalPath && a.quarantinePath == b.quarantinePath &&
    a.manifestPath == b.manifestPath
  }

  predicate SamePlaces(a: seq<Item>, b: seq<Item>) {
    |a| == |b| && forall i | 0 <= i < |a| :: SamePlace(a[i], b[i])
  }
}

/** A file system as a finite map from paths to nodes, and the effect of each system call on it. */
module FileTree {
  import opened Paths
  import opened Transactions

  datatype Data = Bytes(content: int) | Incomplete | ManifestData(manifest: Manifest)
  datatype Node = Directory | File(data: Data) | Link

  type FS = map<Path, Node>

  predicate Vacant(fs: FS, p: Path) {
    forall k | k in fs :: !(p <= k)
  }

  /** The tree rooted at p, as a map from paths relative to p. */
  function TreeAt(fs: FS, p: Path): (t: map<Path, Node>)
    ensures forall s :: s in t <==> p + s in fs
    ensures forall s | s in t :: t[s] == fs[p + s]
  {
    var suffixes := set k | k in fs && p <= k :: k[|p|..];
    assert forall s :: s in suffixes <==> p + s in fs by {
      forall s
        ensures s in suffixes <==> p + s in fs
      {
        assert (p + s)[|p|..] == s && p <= p + s;
        if s in suffixes {
          var k :| k in fs && p <= k && k[|p|..] == s;
          assert k == p + s;
        }
      }
    }
    map s | s in suffixes :: fs[p + s]
  }

  predicate SameAt(fs: FS, fs': FS, k: Path) {
    (k in fs <==> k in fs') && (k in fs ==> fs[k] == fs'[k])
  }

  /** rename(2): the tree at p becomes the tree at q. */
  function Renamed(fs: FS, p: Path, q: Path): (r: FS)
    ensures forall k :: k in r <==> if q <= k then p + k[|q|..] in fs else k in fs && !(p <= k)
    ensures forall k | k in r :: r[k] == if q <= k then fs[p + k[|q|..]] else fs[k]
  {
    var kept := set k | k in fs && !(p <= k) && !(q <= k);
    var moved := set k | k in fs && p <= k :: q + k[|p|..];
    assert forall k :: k in moved <==> q <= k && p + k[|q|..] in fs by {
      forall k
        ensures k in moved <==> q <= k && p + k[|q|..] in fs
      {
        if k in moved {
          var o :| o in fs && p <= o && k == q + o[|p|..];
          assert p + k[|q|..] == o;
        }
        if q <= k && p + k[|q|..] in fs {
          var o := p + k[|q|..];
          assert p <= o && k == q + o[|p|..];
        }
      }
    }
    map k | k in kept + moved :: if q <= k then fs[p + k[|q|..]] else fs[k]
  }

  /** A node that is not a directory and has nothing below it. */
  predicate Leaf(fs: FS, p: Path) {
    p in fs && !fs[p].Directory? && forall k | k in fs && p <= k :: k == p
  }

  predicate HasParent(fs: FS, p: Path) {
    |p| <= 1 || (Dir(p) in fs && fs[Dir(p)].Directory?)
  }

  /** What os.Rename needs: a source, an existing target directory, a target that is free or a plain file
      replaced by a plain file, and no renaming of a directory into itself. */
  predicate CanRename(fs: FS, p: Path, q: Path) {
    p in fs && q != [] && !Nested(p, q) && HasParent(fs, q) && (Vacant(fs, q) || (Leaf(fs, p) && Leaf(fs, q)))
  }

  /** What os.WriteFile needs: an existing directory, and no name there or a plain file. */
  predicate CanWrite(fs: FS, p: Path) {
    p != [] && HasParent(fs, p) && (Vacant(fs, p) || (Leaf(fs, p) && fs[p].File?))
  }

  /** os.MkdirAll, finished or not: it only ever adds directories that are ancestors of d or d itself. */
  ghost predicate AddsDirs(fs: FS, fs': FS, d: Path) {
    (forall k | k in fs :: k in fs' && fs'[k] == fs[k]) &&
    (forall k | k in fs' && k !in fs :: fs'[k].Directory? && k != [] && k <= d)
  }

  /** No ancestor of d (d included) is occupied by something other than a directory. */
  predicate DirsOnly(fs: FS, d: Path) {
    forall k | k in fs && k != [] && k <= d :: fs[k].Directory?
  }

  ghost predicate DirsExist(fs: FS, d: Path) {
    forall n | 0 < n <= |d| :: d[..n] in fs && fs[d[..n]].Directory?
  }

  /** A write that got anywhere changes nothing but the file it writes. */
  ghost predicate WritesOnly(fs: FS, fs': FS, p: Path) {
    (forall k | k in fs || k in fs' :: k == p || SameAt(fs, fs', k)) && (p in fs ==> p in fs')
  }

  /** A removal, finished or not: nothing outside p changes and nothing appears or changes inside. */
  ghost predicate RemovesUnder(fs: FS, fs': FS, p: Path) {
    (forall k | k in fs' :: k in fs && fs'[k] == fs[k]) &&
    (forall k | k in fs && k !in fs' :: p <= k)
  }

  // Frame lemmas: what each effect leaves alone.

  lemma SameTree(fs: FS, fs': FS, r: Path)
    requires forall k | r <= k :: SameAt(fs, fs', k)
    ensures TreeAt(fs', r) == TreeAt(fs, r)
    ensures Vacant(fs, r) <==> Vacant(fs', r)
  {
    forall s
      ensures s in TreeAt(fs, r) <==> s in TreeAt(fs', r)
      ensures s in TreeAt(fs, r) ==> TreeAt(fs, r)[s] == TreeAt(fs', r)[s]
    {
      assert r <= r + s;
      assert SameAt(fs, fs', r + s);
    }
    forall k | k in fs && r <= k
      ensures k in fs'
    {
      assert SameAt(fs, fs', k);
    }
    forall k | k in fs' && r <= k
      ensures k in fs
    {
      assert SameAt(fs, fs', k);
    }
  }

  lemma MkdirKeepsTree(fs: FS, fs': FS, d: Path, r: Path)
    requires AddsDirs(fs, fs', d) && !(r <= d)
    ensures TreeAt(fs', r) == TreeAt(fs, r)
    ensures Vacant(fs, r) <==> Vacant(fs', r)
  {
    assert forall k | r <= k :: SameAt(fs, fs', k);
    SameTree(fs, fs', r);
  }

  lemma RemoveKeepsTree(fs: FS, fs': FS, p: Path, r: Path)
    requires RemovesUnder(fs, fs', p) && !Nested(p, r)
    ensures TreeAt(fs', r) == TreeAt(fs, r)
    ensures Vacant(fs, r) <==> Vacant(fs', r)
  {
    forall k | r <= k
      ensures SameAt(fs, fs', k)
    {
      if k in fs && k !in fs' {
        AncestorsFormAChain(k, p, r);
      }
    }
    SameTree(fs, fs', r);
  }

  /** Moving a tree takes all of it, leaves nothing behind, and disturbs no tree elsewhere. */
  lemma RenameMovesTree(fs: FS, p: Path, q: Path)
    requires !Nested(p, q)
    ensures TreeAt(Renamed(fs, p, q), q) == TreeAt(fs, p)
    ensures Vacant(Renamed(fs, p, q), p)
  {
    var r := Renamed(fs, p, q);
    forall s
      ensures s in TreeAt(r, q) <==> s in TreeAt(fs, p)
      ensures s in TreeAt(fs, p) ==> TreeAt(r, q)[s] == TreeAt(fs, p)[s]
    {
      assert q <= q + s && (q + s)[|q|..] == s;
    }
    forall k | k in r
      ensures !(p <= k)
    {
      if p <= k && q <= k {
        AncestorsFormAChain(k, p, q);
      }
    }
  }

  lemma RenameKeepsTree(fs: FS, p: Path, q: Path, r: Path)
    requires !Nested(p, r) && !Nested(q, r)
    ensures TreeAt(Renamed(fs, p, q), r) == TreeAt(fs, r)
    ensures Vacant(fs, r) <==> Vacant(Renamed(fs, p, q), r)
  {
    var fs' := Renamed(fs, p, q);
    forall k | r <= k
      ensures SameAt(fs, fs', k)
    {
      if p <= k {
        AncestorsFormAChain(k, p, r);
      }
      if q <= k {
        AncestorsFormAChain(k, q, r);
      }
    }
    SameTree(fs, fs', r);
  }

  /** Replacing one plain file by another touches just the two names. */
  lemma RenameLeaf(fs: FS, p: Path, q: Path)
    requires CanRename(fs, p, q) && Leaf(fs, p)
    ensures Renamed(fs, p, q) == (fs - {p})[q := fs[p]]
  {
    var r := Renamed(fs, p, q);
    forall k
      ensures k in r <==> k in (fs - {p})[q := fs[p]]
      ensures k in r ==> r[k] == (fs - {p})[q := fs[p]][k]
    {
      if q <= k {
        var o := p + k[|q|..];
        assert p <= o;
        if k == q {
          assert o == p;
        }
      }
    }
  }
}
