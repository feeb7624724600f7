/** The byte stream a report directory is hashed from: every file's path and contents, each behind
    its length, in one fixed order. */
module Snapshots {
  import opened Wrappers
  import opened Arithmetic

  type Byte = n: nat | n < 256
  type Bytes = seq<Byte>

  /** Relative path to contents. */
  type Directory = map<Bytes, Bytes>

  datatype File = File(path: Bytes, contents: Bytes)

  const TWO64 := 0x1_0000_0000_0000_0000

  /** `int.to_bytes(k, "big")`. */
  function BigEndian(n: nat, k: nat): (bs: Bytes)
    ensures |bs| == k
  {
    if k == 0 then [] else BigEndian(n / 256, k - 1) + [n % 256]
  }

  function Number(bs: Bytes): nat {
    if bs == [] then 0 else 256 * Number(bs[..|bs| - 1]) + bs[|bs| - 1]
  }

  function Power256(k: nat): nat {
    if k == 0 then 1 else 256 * Power256(k - 1)
  }

  lemma NumberOfAppend(bs: Bytes, b: Byte)
    ensures Number(bs + [b]) == 256 * Number(bs) + b
  {
    assert (bs + [b])[..|bs|] == bs;
  }

  lemma {:induction false} BigEndianReadsBack(n: nat, k: nat)
    requires n < Power256(k)
    ensures Number(BigEndian(n, k)) == n
  {
    if k == 0 {
    } else {
      var high, low := n / 256, n % 256;
      BigEndianReadsBack(high, k - 1);
      NumberOfAppend(BigEndian(high, k - 1), low);
    }
  }

  function Zeros(k: nat): Bytes {
    seq(k, _ => 0)
  }

  /** The most significant bytes come first: a number that needs only `k` bytes is led by zeros. */
  lemma {:induction false} LeadingBytesAreZero(n: nat, j: nat, k: nat)
    requires n < Power256(k)
    ensures BigEndian(n, j + k) == Zeros(j) + BigEndian(n, k)
    decreases j + k
  {
    if k > 0 {
      LeadingBytesAreZero(n / 256, j, k - 1);
    } else if j > 0 {
      LeadingBytesAreZero(0, j - 1, 0);
      assert BigEndian(0, j) == Zeros(j - 1) + [0];
    }
  }

  /** `to_bytes` raises beyond 64 bits; no file is that long. */
  predicate Sized(f: File) {
    |f.path| < TWO64 && |f.contents| < TWO64
  }

  predicate AllSized(files: seq<File>) {
    forall i :: 0 <= i < |files| ==> Sized(files[i])
  }

  function Field(bs: Bytes): Bytes
    requires |bs| < TWO64
  {
    BigEndian(|bs|, 8) + bs
  }

  function Chunk(f: File): Bytes
    requires Sized(f)
  {
    Field(f.path) + Field(f.contents)
  }

  function Stream(files: seq<File>): Bytes
    requires AllSized(files)
  {
    if files == [] then [] else Chunk(files[0]) + Stream(files[1..])
  }

  /** One length-prefixed field and what follows it. */
  function TakeField(bs: Bytes): Option<(Bytes, Bytes)> {
    if |bs| < 8 then None
    else
      var n := Number(bs[..8]);
      if |bs| < 8 + n then None else Some((bs[8..8 + n], bs[8 + n..]))
  }

  /** Reads a stream back into its files. */
  function Decode(bs: Bytes): Option<seq<File>>
    decreases |bs|
  {
    if bs == [] then Some([])
    else
      match TakeField(bs)
      case None => None
      case Some((path, afterPath)) =>
        match TakeField(afterPath)
        case None => None
        case Some((contents, rest)) =>
          match Decode(rest)
          case None => None
          case Some(files) => Some([File(path, contents)] + files)
  }

  lemma TakeFieldBack(bs: Bytes, rest: Bytes)
    requires |bs| < TWO64
    ensures TakeField(Field(bs) + rest) == Some((bs, rest))
  {
    assert Power256(8) == TWO64;
    BigEndianReadsBack(|bs|, 8);
    var all := Field(bs) + rest;
    assert all[..8] == BigEndian(|bs|, 8);
    assert all[8..8 + |bs|] == bs;
    assert all[8 + |bs|..] == rest;
  }

  /** The stream is uniquely decodable: no two lists of files share one. */
  lemma {:induction false} StreamReadsBack(files: seq<File>)
    requires AllSized(files)
    ensures Decode(Stream(files)) == Some(files)
  {
    if files == [] {
    } else {
      var f, rest := files[0], Stream(files[1..]);
      assert Stream(files) == Field(f.path) + (Field(f.contents) + rest);
      TakeFieldBack(f.path, Field(f.contents) + rest);
      TakeFieldBack(f.contents, rest);
      StreamReadsBack(files[1..]);
      assert files == [f] + files[1..];
    }
  }

  lemma {:induction false} StreamAppend(files: seq<File>, f: File)
    requires AllSized(files) && Sized(f)
    ensures Stream(files + [f]) == Stream(files) + Chunk(f)
  {
    if files == [] {
      assert files + [f] == [f];
      assert Stream([f]) == Chunk(f) + Stream([f][1..]);
    } else {
      StreamAppend(files[1..], f);
      assert (files + [f])[1..] == files[1..] + [f];
    }
  }

  // ---- directories ----

  /** A fixed order on the files of any directory: every path once. */
  ghost predicate IsOrder(order: set<Bytes> -> seq<Bytes>) {
    forall paths: set<Bytes> ::
      (forall p :: p in order(paths) <==> p in paths) &&
      (forall i, j :: 0 <= i < j < |order(paths)| ==> order(paths)[i] != order(paths)[j])
  }

  predicate Listable(order: set<Bytes> -> seq<Bytes>, dir: Directory) {
    forall i :: 0 <= i < |order(dir.Keys)| ==> order(dir.Keys)[i] in dir
  }

  function Listing(order: set<Bytes> -> seq<Bytes>, dir: Directory): (files: seq<File>)
    requires Listable(order, dir)
    ensures |files| == |order(dir.Keys)|
    ensures forall i :: 0 <= i < |files| ==> files[i] == File(order(dir.Keys)[i], dir[order(dir.Keys)[i]])
  {
    var paths := order(dir.Keys);
    seq(|paths|, i requires 0 <= i < |paths| => File(paths[i], dir[paths[i]]))
  }

  predicate SizedDirectory(dir: Directory) {
    forall p :: p in dir ==> |p| < TWO64 && |dir[p]| < TWO64
  }

  /** What `snapshot_id_for` feeds its digest. */
  function DirectoryStream(order: set<Bytes> -> seq<Bytes>, dir: Directory): Bytes
    requires Listable(order, dir) && SizedDirectory(dir)
  {
    Stream(Listing(order, dir))
  }

  lemma ListingsAreDistinct(order: set<Bytes> -> seq<Bytes>, a: Directory, b: Directory)
    requires IsOrder(order) && Listable(order, a) && Listable(order, b) && Listing(order, a) == Listing(order, b)
    ensures a == b
  {
    var files := Listing(order, a);
    forall p
      ensures p in a ==> p in b && b[p] == a[p]
      ensures p in b ==> p in a
    {
      if p in a {
        assert p in order(a.Keys);
        var i :| 0 <= i < |files| && order(a.Keys)[i] == p;
        assert files[i].path == p && order(b.Keys)[i] == p;
      }
      if p in b {
        assert p in order(b.Keys);
        var i :| 0 <= i < |files| && order(b.Keys)[i] == p;
        assert files[i].path == p && order(a.Keys)[i] == p;
      }
    }
  }

  /** Different directories are never hashed from the same bytes. */
  lemma DirectoryStreamsAreDistinct(order: set<Bytes> -> seq<Bytes>, a: Directory, b: Directory)
    requires IsOrder(order) && Listable(order, a) && Listable(order, b) && SizedDirectory(a) && SizedDirectory(b)
    ensures DirectoryStream(order, a) == DirectoryStream(order, b) <==> a == b
  {
    if DirectoryStream(order, a) == DirectoryStream(order, b) {
      StreamReadsBack(Listing(order, a));
      StreamReadsBack(Listing(order, b));
      ListingsAreDistinct(order, a, b);
    }
  }

  lemma ChunkIsFed(fed: Bytes, f: File)
    requires Sized(f)
    ensures fed + BigEndian(|f.path|, 8) + f.path + BigEndian(|f.contents|, 8) + f.contents == fed + Chunk(f)
  {
  }

  /** `snapshot_id_for`: the digest is fed piece by piece in one loop over the sorted files. */
  method SnapshotIdFor(order: set<Bytes> -> seq<Bytes>, hash: Bytes -> Bytes, dir: Directory) returns (id: Bytes)
    requires Listable(order, dir) && SizedDirectory(dir)
    ensures id == hash(DirectoryStream(order, dir))
  {
    var files := Listing(order, dir);
    var fed: Bytes := [];
    for i := 0 to |files|
      invariant fed == Stream(files[..i])
    {
      var f := files[i];
      ChunkIsFed(fed, f);
      StreamAppend(files[..i], f);
      assert files[..i + 1] == files[..i] + [f];
      fed := fed + BigEndian(|f.path|, 8);
      fed := fed + f.path;
      fed := fed + BigEndian(|f.contents|, 8);
      fed := fed + f.contents;
    }
    assert files[..|files|] == files;
    id := hash(fed);
  }
}
