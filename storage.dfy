/** The storage screen's figures: the data partition's totals and the fixed
    per-category usage list, shown largest first. The partition's total and
    available bytes are inputs. */
module Storage {
  import opened Sorting
  import opened Sizes

  datatype StorageInfo = StorageInfo(path: string, totalBytes: int, freeBytes: int, usedBytes: int,
                                     usedPercentage: real)

  /** `getStorageInfo`: used is total minus available. */
  function GetStorageInfo(path: string, totalBytes: int, availableBytes: int): (s: StorageInfo)
    ensures s.path == path && s.totalBytes == totalBytes && s.freeBytes == availableBytes
    ensures s.usedBytes + s.freeBytes == s.totalBytes
    ensures totalBytes <= 0 ==> s.usedPercentage == 0.0
    ensures totalBytes > 0 ==> s.usedPercentage * totalBytes as real == s.usedBytes as real
    ensures 0 <= availableBytes <= totalBytes && totalBytes > 0 ==> 0.0 <= s.usedPercentage <= 1.0
  {
    var usedBytes := totalBytes - availableBytes;
    StorageInfo(path, totalBytes, availableBytes, usedBytes, UsedFraction(usedBytes, totalBytes))
  }

  /** A usage category (`FileTypeInfo`; the icon is not modelled). */
  datatype FileTypeInfo = FileTypeInfo(name: string, sizeBytes: int)

  /** `getFileTypeUsage`: six fixed categories, sizes in GiB. */
  function GetFileTypeUsage(): (r: seq<FileTypeInfo>)
    ensures |r| == 6
    ensures forall i :: 0 <= i < |r| ==> r[i].sizeBytes > 0 && r[i].sizeBytes % GIB == 0
  {
    [FileTypeInfo("Apps", 32 * GIB),
     FileTypeInfo("Images", 15 * GIB),
     FileTypeInfo("Videos", 25 * GIB),
     FileTypeInfo("Audio", 5 * GIB),
     FileTypeInfo("Documents", 2 * GIB),
     FileTypeInfo("Other", 8 * GIB)]
  }

  /** `sortedByDescending { it.sizeBytes }` as an ascending key. */
  function BySizeDescending(f: FileTypeInfo): seq<int>
  {
    [-f.sizeBytes]
  }

  /** The list as displayed. */
  function SortedFileTypes(fileTypes: seq<FileTypeInfo>): (r: seq<FileTypeInfo>)
    ensures multiset(r) == multiset(fileTypes)
    ensures Descending(r)
  {
    var r := SortBy(fileTypes, BySizeDescending);
    forall i, j | 0 <= i < j < |r| ensures r[i].sizeBytes >= r[j].sizeBytes {
      DescendingKeyOrder(r[i], r[j]);
    }
    r
  }

  lemma DescendingKeyOrder(a: FileTypeInfo, b: FileTypeInfo)
    ensures !LexLess(BySizeDescending(b), BySizeDescending(a)) <==> b.sizeBytes <= a.sizeBytes
  {
    assert BySizeDescending(b)[1..] == [] && BySizeDescending(a)[1..] == [];
  }

  /** The categories in the order they are displayed. */
  function DisplayedFileTypes(): seq<FileTypeInfo>
  {
    [FileTypeInfo("Apps", 32 * GIB), FileTypeInfo("Videos", 25 * GIB),
     FileTypeInfo("Images", 15 * GIB), FileTypeInfo("Other", 8 * GIB),
     FileTypeInfo("Audio", 5 * GIB), FileTypeInfo("Documents", 2 * GIB)]
  }

  /** The categories are shown as Apps, Videos, Images, Other, Audio,
      Documents. */
  lemma DisplayedOrder()
    ensures SortedFileTypes(GetFileTypeUsage()) == DisplayedFileTypes()
  {
    DisplayedIsPermutation();
    DisplayedIsStrictlyDescending();
    SortedDistinctUnique(SortedFileTypes(GetFileTypeUsage()), DisplayedFileTypes());
  }

  lemma DisplayedIsPermutation()
    ensures multiset(GetFileTypeUsage()) == multiset(DisplayedFileTypes())
  {
    var u := GetFileTypeUsage();
    assert u == [u[0], u[1], u[2], u[3], u[4], u[5]];
    assert DisplayedFileTypes() == [u[0], u[2], u[1], u[5], u[3], u[4]];
  }

  lemma DisplayedIsStrictlyDescending()
    ensures StrictlyDescending(DisplayedFileTypes())
  {
    var d := DisplayedFileTypes();
    assert forall i :: 0 <= i < 5 ==> d[i].sizeBytes > d[i + 1].sizeBytes;
    AdjacentDescending(d);
  }

  predicate Descending(s: seq<FileTypeInfo>)
  {
    forall i, j :: 0 <= i < j < |s| ==> s[i].sizeBytes >= s[j].sizeBytes
  }

  predicate StrictlyDescending(s: seq<FileTypeInfo>)
  {
    forall i, j :: 0 <= i < j < |s| ==> s[i].sizeBytes > s[j].sizeBytes
  }

  lemma {:induction false} AdjacentDescending(s: seq<FileTypeInfo>)
    requires forall i :: 0 <= i < |s| - 1 ==> s[i].sizeBytes > s[i + 1].sizeBytes
    ensures StrictlyDescending(s)
    decreases |s|
  {
    if |s| > 1 {
      AdjacentDescending(s[1..]);
      forall j | 1 < j < |s| ensures s[0].sizeBytes > s[j].sizeBytes {
        assert s[1..][0].sizeBytes > s[1..][j - 1].sizeBytes;
      }
    }
  }

  /** Two lists holding the same categories, both in descending order of
      size and the second strictly so, are equal. */
  lemma {:induction false} SortedDistinctUnique(a: seq<FileTypeInfo>, b: seq<FileTypeInfo>)
    requires multiset(a) == multiset(b)
    requires Descending(a) && StrictlyDescending(b)
    ensures a == b
    decreases |a|
  {
    assert |a| == |multiset(a)| == |multiset(b)| == |b|;
    if a != [] {
      HeadsEqual(a, b);
      TailsAgree(a, b);
      SortedDistinctUnique(a[1..], b[1..]);
      assert a == [a[0]] + a[1..] && b == [b[0]] + b[1..];
    }
  }

  lemma HeadsEqual(a: seq<FileTypeInfo>, b: seq<FileTypeInfo>)
    requires multiset(a) == multiset(b) && a != [] && b != []
    requires Descending(a) && StrictlyDescending(b)
    ensures a[0] == b[0]
  {
    assert b[0] in multiset(a);
    assert a[0] in multiset(b);
    var ia :| 0 <= ia < |a| && a[ia] == b[0];
    var ib :| 0 <= ib < |b| && b[ib] == a[0];
    assert a[0].sizeBytes >= a[ia].sizeBytes;
    assert b[0].sizeBytes >= b[ib].sizeBytes;
    assert ib == 0;
  }

  lemma TailsAgree(a: seq<FileTypeInfo>, b: seq<FileTypeInfo>)
    requires multiset(a) == multiset(b) && a != [] && b != [] && a[0] == b[0]
    requires Descending(a) && StrictlyDescending(b)
    ensures multiset(a[1..]) == multiset(b[1..])
    ensures Descending(a[1..]) && StrictlyDescending(b[1..])
  {
    MultisetOfTail(a);
    MultisetOfTail(b);
  }

  lemma MultisetOfTail(s: seq<FileTypeInfo>)
    requires s != []
    ensures multiset(s[1..]) == multiset(s) - multiset{s[0]}
  {
    assert s == [s[0]] + s[1..];
  }
}
