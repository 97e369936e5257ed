/**
 * A user's deposit box on the FTP server: where it is, the files found in it
 * sorted into VCF files, spreadsheets and the rest, their total size, and the
 * most recently modified spreadsheet.  Walking the directory and reading the
 * modification times are I/O: the walked files, with their sizes and times,
 * are an input.
 */
module SubmissionInFtp {
  import opened Wrappers
  import opened Text
  import opened Collections

  /** `'%02d' % n`: at least two digits, zero-padded; a negative number keeps its sign. */
  function TwoDigits(n: int): string
  {
    if 0 <= n < 10 then "0" + NatToString(n) else IntToString(n)
  }

  /** A box number below 100 is written as exactly two digits that read back as the number. */
  lemma TwoDigitsBelow100(n: int)
    requires 0 <= n < 100
    ensures |TwoDigits(n)| == 2 && AllDigits(TwoDigits(n)) && DigitsValue(TwoDigits(n)) == n
  {
    var r := TwoDigits(n);
    if n < 10 {
      assert r == "0" + [DigitChar(n)];
      assert r[..1] == "0" && r[..1][..0] == [];
      assert DigitsValue(r[..1]) == 0;
      assert DigitsValue(r) == DigitsValue(r[..1]) * 10 + DigitValue(r[1]);
    } else {
      NatToStringRoundTrip(n);
      assert NatToString(n / 10) == [DigitChar(n / 10)];
    }
  }

  /** `deposit_box`: `<ftp_dir>/eva-box-NN/upload/<username>`. */
  function DepositBox(ftpDir: string, box: int, username: string): string
  {
    PathJoin(PathJoin(PathJoin(ftpDir, "eva-box-" + TwoDigits(box)), "upload"), username)
  }

  /** For an FTP directory not ending in '/' and a relative user name, the path is the four parts joined by '/'. */
  lemma DepositBoxPath(ftpDir: string, box: int, username: string)
    requires ftpDir != [] && ftpDir[|ftpDir| - 1] != '/' && (username == [] || username[0] != '/')
    ensures DepositBox(ftpDir, box, username) == ftpDir + "/" + ("eva-box-" + TwoDigits(box)) + "/" + "upload" + "/" + username
  {
    var boxName := "eva-box-" + TwoDigits(box);
    assert boxName[0] == 'e';
    var p1 := ftpDir + "/" + boxName;
    JoinRelative(ftpDir, boxName);
    assert p1[|p1| - 1] == boxName[|boxName| - 1];
    assert "upload"[0] == 'u';
    var p2 := p1 + "/" + "upload";
    JoinRelative(p1, "upload");
    assert p2[|p2| - 1] == 'd';
    JoinRelative(p2, username);
  }

  /** Joining a relative part onto a directory not ending in '/' inserts one '/'. */
  lemma JoinRelative(a: string, b: string)
    requires a != [] && a[|a| - 1] != '/'
    requires b == [] || b[0] != '/'
    ensures PathJoin(a, b) == a + "/" + b
  {
    assert !StartsWith(b, "/") by {
      if b != [] { assert b[..1] != "/"; }
    }
  }

  /** A file found in the box: its path, size in bytes and modification time. */
  datatype FileEntry = FileEntry(path: string, size: nat, mtime: int)

  datatype Category = Vcf | Metadata | Other

  /** `_explore`'s test: VCF files by extension, then spreadsheets, then everything else. */
  function CategoryOf(path: string): Category
  {
    if EndsWith(path, ".vcf.gz") || EndsWith(path, ".vcf") then Vcf
    else if EndsWith(path, ".xlsx") then Metadata
    else Other
  }

  /** The files of one category, in the order found. */
  function OfCategory(files: seq<FileEntry>, c: Category): seq<FileEntry>
  {
    if files == [] then []
    else
      var last := files[|files| - 1];
      OfCategory(files[..|files| - 1], c) + (if CategoryOf(last.path) == c then [last] else [])
  }

  /** What one file adds to the list of category c: itself when it is of that category, nothing otherwise. */
  function Added(f: FileEntry, c: Category): seq<FileEntry>
  {
    if CategoryOf(f.path) == c then [f] else []
  }

  /** A file is added to exactly one of the three lists. */
  lemma AddedOnce(f: FileEntry)
    ensures multiset(Added(f, Vcf)) + multiset(Added(f, Metadata)) + multiset(Added(f, Other)) == multiset{f}
    ensures SizeOf(Added(f, Vcf)) + SizeOf(Added(f, Metadata)) + SizeOf(Added(f, Other)) == f.size
  {
    assert SizeOf([f]) == f.size by { assert [f][..0] == []; }
  }

  /** One more file found extends the list of its own category only. */
  lemma OfCategorySnoc(files: seq<FileEntry>, f: FileEntry, c: Category)
    ensures OfCategory(files + [f], c) == OfCategory(files, c) + Added(f, c)
  {
    assert (files + [f])[..|files|] == files;
  }

  /** A list holds exactly the found files of its category. */
  lemma {:induction false} OfCategoryMembers(files: seq<FileEntry>, c: Category)
    ensures forall f :: f in OfCategory(files, c) <==> f in files && CategoryOf(f.path) == c
  {
    if files != [] {
      var init, last := files[..|files| - 1], files[|files| - 1];
      assert files == init + [last];
      OfCategoryMembers(init, c);
      OfCategorySnoc(init, last, c);
    }
  }

  /** Every file lands in exactly one of the three lists. */
  lemma {:induction false} CategoriesPartition(files: seq<FileEntry>)
    ensures Partitioned(files)
  {
    if files != [] {
      var init, last := files[..|files| - 1], files[|files| - 1];
      assert files == init + [last];
      CategoriesPartition(init);
      PartitionedSnoc(init, last);
    }
  }

  /** The three lists of found files together hold every found file, as often as it was found. */
  predicate Partitioned(files: seq<FileEntry>)
  {
    multiset(OfCategory(files, Vcf)) + multiset(OfCategory(files, Metadata)) + multiset(OfCategory(files, Other)) == multiset(files)
  }

  lemma PartitionedSnoc(init: seq<FileEntry>, last: FileEntry)
    requires Partitioned(init)
    ensures Partitioned(init + [last])
  {
    FoundOneMore(init, last);
    AddedOnce(last);
    PartitionStep(OfCategory(init, Vcf), OfCategory(init, Metadata), OfCategory(init, Other),
                  Added(last, Vcf), Added(last, Metadata), Added(last, Other), init, last);
  }

  /** Three lists partitioning a prefix, each extended by a part of a partition of one more file, partition the longer prefix. */
  lemma PartitionStep(v: seq<FileEntry>, m: seq<FileEntry>, o: seq<FileEntry>,
                      x: seq<FileEntry>, y: seq<FileEntry>, z: seq<FileEntry>, init: seq<FileEntry>, last: FileEntry)
    requires multiset(v) + multiset(m) + multiset(o) == multiset(init)
    requires multiset(x) + multiset(y) + multiset(z) == multiset{last}
    ensures multiset(v + x) + multiset(m + y) + multiset(o + z) == multiset(init + [last])
  {
    calc {
      multiset(v + x) + multiset(m + y) + multiset(o + z);
      (multiset(v) + multiset(x)) + (multiset(m) + multiset(y)) + (multiset(o) + multiset(z));
      { Regroup(multiset(v), multiset(m), multiset(o), multiset(x), multiset(y), multiset(z)); }
      (multiset(v) + multiset(m) + multiset(o)) + (multiset(x) + multiset(y) + multiset(z));
    }
  }

  lemma Regroup<T>(a: multiset<T>, b: multiset<T>, c: multiset<T>, x: multiset<T>, y: multiset<T>, z: multiset<T>)
    ensures (a + x) + (b + y) + (c + z) == (a + b + c) + (x + y + z)
  {
  }

  /** One more file found extends each list by what it adds to that category. */
  lemma FoundOneMore(files: seq<FileEntry>, f: FileEntry)
    ensures OfCategory(files + [f], Vcf) == OfCategory(files, Vcf) + Added(f, Vcf)
    ensures OfCategory(files + [f], Metadata) == OfCategory(files, Metadata) + Added(f, Metadata)
    ensures OfCategory(files + [f], Other) == OfCategory(files, Other) + Added(f, Other)
  {
    OfCategorySnoc(files, f, Vcf);
    OfCategorySnoc(files, f, Metadata);
    OfCategorySnoc(files, f, Other);
  }

  /** `_size_of`: the sum of the sizes. */
  function SizeOf(files: seq<FileEntry>): nat
  {
    if files == [] then 0 else SizeOf(files[..|files| - 1]) + files[|files| - 1].size
  }

  lemma {:induction false} SizeOfConcat(a: seq<FileEntry>, b: seq<FileEntry>)
    ensures SizeOf(a + b) == SizeOf(a) + SizeOf(b)
  {
    if b != [] {
      var init := b[..|b| - 1];
      SizeOfConcat(a, init);
      assert (a + b)[..|a + b| - 1] == a + init;
    } else {
      assert a + b == a;
    }
  }

  /** The total size splits over the three lists. */
  lemma {:induction false} SizeSplits(files: seq<FileEntry>)
    ensures SizeOf(OfCategory(files, Vcf)) + SizeOf(OfCategory(files, Metadata)) + SizeOf(OfCategory(files, Other)) == SizeOf(files)
  {
    if files != [] {
      var init, last := files[..|files| - 1], files[|files| - 1];
      assert files == init + [last];
      SizeSplits(init);
      FoundOneMore(init, last);
      SizeOfConcat(OfCategory(init, Vcf), Added(last, Vcf));
      SizeOfConcat(OfCategory(init, Metadata), Added(last, Metadata));
      SizeOfConcat(OfCategory(init, Other), Added(last, Other));
      AddedOnce(last);
    }
  }

  /** `_last_modified_of`: the latest modification time, None for no files. */
  function LastModifiedOf(files: seq<FileEntry>): (r: Option<int>)
    ensures r.None? <==> files == []
    ensures r.Some? ==> (exists i :: 0 <= i < |files| && files[i].mtime == r.value) && forall i :: 0 <= i < |files| ==> files[i].mtime <= r.value
  {
    if files == [] then None
    else
      var init := files[..|files| - 1];
      var t := files[|files| - 1].mtime;
      var r := match LastModifiedOf(init) case None => Some(t) case Some(m) => Some(if m >= t then m else t);
      assert forall i :: 0 <= i < |init| ==> init[i] == files[i];
      r
  }

  /**
   * The entry `sorted(files, key=mtime)[-1]` picks: the sort is stable, so
   * among the latest files it is the last one found.
   */
  function Latest(files: seq<FileEntry>): (r: FileEntry)
    requires files != []
    ensures r in files
  {
    if |files| == 1 then files[0]
    else
      var best := Latest(files[..|files| - 1]);
      var last := files[|files| - 1];
      if last.mtime >= best.mtime then last else best
  }

  /** The chosen entry is as late as any, and every entry after it is strictly earlier. */
  lemma {:induction false} LatestMeaning(files: seq<FileEntry>)
    requires files != []
    ensures exists k :: LatestAt(files, k)
  {
    var n := |files|;
    if n == 1 {
      assert LatestAt(files, 0);
    } else {
      var init := files[..n - 1];
      LatestMeaning(init);
      var k :| LatestAt(init, k);
      assert forall i :: 0 <= i < |init| ==> init[i] == files[i];
      if files[n - 1].mtime >= Latest(init).mtime {
        assert LatestAt(files, n - 1);
      } else {
        assert LatestAt(files, k);
      }
    }
  }

  /** Entry k is the one `Latest` picks, no entry is later, and none after k is as late. */
  predicate LatestAt(files: seq<FileEntry>, k: int)
    requires files != []
  {
    0 <= k < |files| && files[k] == Latest(files) &&
    (forall i :: 0 <= i < |files| ==> files[i].mtime <= Latest(files).mtime) &&
    (forall i :: k < i < |files| ==> files[i].mtime < Latest(files).mtime)
  }

  /** `most_recent_metadata`: the path of the latest spreadsheet, None without any. */
  function MostRecent(metadata: seq<FileEntry>): (r: Option<string>)
    ensures r.None? <==> metadata == []
    ensures r.Some? ==> exists i :: (0 <= i < |metadata| && metadata[i].path == r.value &&
      LastModifiedOf(metadata) == Some(metadata[i].mtime))
  {
    if metadata == [] then None
    else
      LatestMeaning(metadata);
      var f := Latest(metadata);
      var k :| LatestAt(metadata, k);
      assert LastModifiedOf(metadata) == Some(f.mtime);
      Some(f.path)
  }

  function Paths(files: seq<FileEntry>): (r: seq<string>)
    ensures |r| == |files| && forall i :: 0 <= i < |files| ==> r[i] == files[i].path
  {
    seq(|files|, i requires 0 <= i < |files| => files[i].path)
  }

  /** A list holding the category-c files of the first i walked files grows by what file i adds. */
  lemma ExploreStep(before: seq<FileEntry>, walked: seq<FileEntry>, i: nat, c: Category)
    requires i < |walked|
    ensures before + OfCategory(walked[..i + 1], c) == (before + OfCategory(walked[..i], c)) + Added(walked[i], c)
  {
    assert walked[..i + 1] == walked[..i] + [walked[i]];
    OfCategorySnoc(walked[..i], walked[i], c);
    ConcatAssoc(before, OfCategory(walked[..i], c), Added(walked[i], c));
  }

  /** `FtpDepositBox`: the box and user it belongs to, and the files found there by category. */
  class FtpDepositBox {
    const ftpDir: string
    const box: int
    const username: string
    var vcfFiles: seq<FileEntry>
    var metadataFiles: seq<FileEntry>
    var otherFiles: seq<FileEntry>

    /** The box is explored on creation, from the files the walk finds. */
    constructor (ftpDir: string, box: int, username: string, walked: seq<FileEntry>)
      ensures this.ftpDir == ftpDir && this.box == box && this.username == username
      ensures vcfFiles == OfCategory(walked, Vcf)
      ensures metadataFiles == OfCategory(walked, Metadata)
      ensures otherFiles == OfCategory(walked, Other)
    {
      this.ftpDir, this.box, this.username := ftpDir, box, username;
      vcfFiles, metadataFiles, otherFiles := [], [], [];
      new;
      Explore(walked);
    }

    /** `_explore`: each walked file appended to the list of its category. */
    method Explore(walked: seq<FileEntry>)
      modifies this
      ensures vcfFiles == old(vcfFiles) + OfCategory(walked, Vcf)
      ensures metadataFiles == old(metadataFiles) + OfCategory(walked, Metadata)
      ensures otherFiles == old(otherFiles) + OfCategory(walked, Other)
    {
      for i := 0 to |walked|
        invariant vcfFiles == old(vcfFiles) + OfCategory(walked[..i], Vcf)
        invariant metadataFiles == old(metadataFiles) + OfCategory(walked[..i], Metadata)
        invariant otherFiles == old(otherFiles) + OfCategory(walked[..i], Other)
      {
        ExploreStep(old(vcfFiles), walked, i, Vcf);
        ExploreStep(old(metadataFiles), walked, i, Metadata);
        ExploreStep(old(otherFiles), walked, i, Other);
        Place(walked[i]);
      }
      assert walked[..|walked|] == walked;
    }

    /** One walked file appended to the list its extension selects. */
    method Place(f: FileEntry)
      modifies this
      ensures vcfFiles == old(vcfFiles) + Added(f, Vcf)
      ensures metadataFiles == old(metadataFiles) + Added(f, Metadata)
      ensures otherFiles == old(otherFiles) + Added(f, Other)
    {
      if EndsWith(f.path, ".vcf.gz") || EndsWith(f.path, ".vcf") {
        vcfFiles := vcfFiles + [f];
      } else if EndsWith(f.path, ".xlsx") {
        metadataFiles := metadataFiles + [f];
      } else {
        otherFiles := otherFiles + [f];
      }
    }

    function Location(): string
      reads this
    {
      DepositBox(ftpDir, box, username)
    }

    /** `size`: the sizes of the three lists added up. */
    function Size(): nat
      reads this
    {
      SizeOf(vcfFiles) + SizeOf(metadataFiles) + SizeOf(otherFiles)
    }

    /** `last_modified`: the box's own time unless all three lists have files, then the latest file time. */
    function LastModified(boxMtime: int): int
      reads this
    {
      if vcfFiles == [] || metadataFiles == [] || otherFiles == [] then boxMtime
      else
        var a, b, c := LastModifiedOf(vcfFiles).value, LastModifiedOf(metadataFiles).value, LastModifiedOf(otherFiles).value;
        if a >= b && a >= c then a else if b >= c then b else c
    }

    function VcfPaths(): seq<string>
      reads this
    {
      Paths(vcfFiles)
    }

    function MetadataPaths(): seq<string>
      reads this
    {
      Paths(metadataFiles)
    }

    function OtherPaths(): seq<string>
      reads this
    {
      Paths(otherFiles)
    }

    function MostRecentMetadata(): Option<string>
      reads this
    {
      MostRecent(metadataFiles)
    }
  }

  /** After exploring, the size is that of every walked file, and each file is in exactly one list. */
  lemma ExploredBox(b: FtpDepositBox, walked: seq<FileEntry>)
    requires b.vcfFiles == OfCategory(walked, Vcf) && b.metadataFiles == OfCategory(walked, Metadata) && b.otherFiles == OfCategory(walked, Other)
    ensures b.Size() == SizeOf(walked)
    ensures multiset(b.vcfFiles) + multiset(b.metadataFiles) + multiset(b.otherFiles) == multiset(walked)
  {
    SizeSplits(walked);
    CategoriesPartition(walked);
  }

  /** With files in all three lists, the box's time is the latest time of any of its files. */
  lemma LastModifiedIsLatest(b: FtpDepositBox, boxMtime: int)
    requires b.vcfFiles != [] && b.metadataFiles != [] && b.otherFiles != []
    ensures var all := b.vcfFiles + b.metadataFiles + b.otherFiles;
      (exists i :: 0 <= i < |all| && all[i].mtime == b.LastModified(boxMtime)) &&
      forall i :: 0 <= i < |all| ==> all[i].mtime <= b.LastModified(boxMtime)
  {
    var all := b.vcfFiles + b.metadataFiles + b.otherFiles;
    var t := b.LastModified(boxMtime);
    var v, m, o := b.vcfFiles, b.metadataFiles, b.otherFiles;
    forall i | 0 <= i < |all|
      ensures all[i].mtime <= t
    {
      if i < |v| { assert all[i] == v[i]; }
      else if i < |v| + |m| { assert all[i] == m[i - |v|]; }
      else { assert all[i] == o[i - |v| - |m|]; }
    }
    var a, bb, c := LastModifiedOf(v).value, LastModifiedOf(m).value, LastModifiedOf(o).value;
    if t == a {
      var i :| 0 <= i < |v| && v[i].mtime == a;
      assert all[i] == v[i];
    } else if t == bb {
      var i :| 0 <= i < |m| && m[i].mtime == bb;
      assert all[|v| + i] == m[i];
    } else {
      var i :| 0 <= i < |o| && o[i].mtime == c;
      assert all[|v| + |m| + i] == o[i];
    }
  }
}
