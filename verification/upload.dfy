/** The upload half of `write_parquet_to_s3` (main.py:74-80): every staged
    `.parquet` file is uploaded under `prefix` joined with its path relative
    to the staging root, one file after another, stopping at the first
    failed upload. */
module Upload {
  import opened Wrappers
  import opened Decimal
  import opened Partitioning

  /** Python's `str.endswith`. */
  predicate EndsWith(s: string, suffix: string) {
    |suffix| <= |s| && s[|s| - |suffix|..] == suffix
  }

  /** POSIX `os.path.join(a, b)`: an absolute `b` replaces `a`; otherwise a
      separator is inserted unless `a` is empty or already ends in one. */
  function Join(a: string, b: string): (p: string)
    ensures EndsWith(p, b)
    ensures |b| > 0 && b[0] != '/' && a != "" && a[|a| - 1] != '/' ==> p == a + "/" + b
    ensures |b| > 0 && b[0] != '/' && a != "" && a[|a| - 1] == '/' ==> p == a + b
    ensures a == "" ==> p == b
  {
    if |b| > 0 && b[0] == '/' then b
    else if a == "" || a[|a| - 1] == '/' then a + b
    else a + "/" + b
  }

  /** The Hive-style directory pyarrow writes a partition's files into,
      relative to the staging root. */
  function PartitionDir(k: PartitionKey): (d: string)
    // a relative path, so joining it to a root never discards the root
    ensures |d| > 0 && d[0] != '/'
    ensures EndsWith(d, k.month)
  {
    "Year=" + IntToString(k.year) + "/Month=" + k.month
  }

  /** A file found by walking the staging directory: the partition directory
      it lies in and its base name. */
  datatype StagedFile = StagedFile(key: PartitionKey, name: string)

  predicate IsParquet(f: StagedFile) {
    EndsWith(f.name, ".parquet")
  }

  /** `os.path.relpath(os.path.join(root, file), output_dir)`. */
  function RelPath(f: StagedFile): (r: string)
    ensures |r| > 0 && r[0] != '/'
    ensures EndsWith(r, "/" + f.name)
  {
    var r := PartitionDir(f.key) + "/" + f.name;
    assert r[|r| - |"/" + f.name|..] == "/" + f.name;
    r
  }

  /** `os.path.join(prefix, relpath)`: the object key a staged file is uploaded under. */
  function UploadKey(prefix: string, f: StagedFile): (key: string)
    // the relative path is kept whole: the prefix is never replaced
    ensures EndsWith(key, RelPath(f))
    ensures prefix == "" ==> key == RelPath(f)
    ensures prefix != "" && prefix[|prefix| - 1] != '/' ==> key == prefix + "/" + RelPath(f)
    ensures prefix != "" && prefix[|prefix| - 1] == '/' ==> key == prefix + RelPath(f)
  {
    Join(prefix, RelPath(f))
  }

  /** The upload keys of the `.parquet` files of a staging listing, in walk order;
      other files are skipped. */
  function UploadKeys(prefix: string, files: seq<StagedFile>): (keys: seq<string>)
    ensures |keys| <= |files|
    ensures forall j | 0 <= j < |keys| ::
              exists i | 0 <= i < |files| :: IsParquet(files[i]) && keys[j] == UploadKey(prefix, files[i])
  {
    if |files| == 0 then []
    else
      var rest := UploadKeys(prefix, files[1..]);
      assert forall i | 1 <= i < |files| :: files[i] == files[1..][i - 1];
      if IsParquet(files[0]) then [UploadKey(prefix, files[0])] + rest else rest
  }

  /** Every `.parquet` file of the listing is uploaded. */
  lemma {:induction false} UploadKeysComplete(prefix: string, files: seq<StagedFile>, i: nat)
    requires i < |files| && IsParquet(files[i])
    ensures UploadKey(prefix, files[i]) in UploadKeys(prefix, files)
  {
    if i > 0 {
      assert files[1..][i - 1] == files[i];
      UploadKeysComplete(prefix, files[1..], i - 1);
    }
  }

  /** Every upload key comes from a `.parquet` file of the listing. */
  lemma UploadedKeyOrigin(prefix: string, files: seq<StagedFile>, key: string)
    requires key in UploadKeys(prefix, files)
    ensures exists i | 0 <= i < |files| :: IsParquet(files[i]) && key == UploadKey(prefix, files[i])
  {
    var keys := UploadKeys(prefix, files);
    var j :| 0 <= j < |keys| && keys[j] == key;
  }

  /** The positions of the `.parquet` files at or after `lo`, in increasing
      order: an independent description of the files the loop uploads. */
  function ParquetPositions(files: seq<StagedFile>, lo: nat): (idx: seq<nat>)
    requires lo <= |files|
    ensures forall j | 0 <= j < |idx| :: lo <= idx[j] < |files| && IsParquet(files[idx[j]])
    ensures forall j, k | 0 <= j < k < |idx| :: idx[j] < idx[k]
    ensures forall i | lo <= i < |files| && IsParquet(files[i]) :: i in idx
    decreases |files| - lo
  {
    if lo == |files| then []
    else
      var rest := ParquetPositions(files, lo + 1);
      if IsParquet(files[lo]) then [lo] + rest else rest
  }

  /** The loop uploads exactly the `.parquet` files, each once, in walk order:
      the j-th key is the key of the j-th `.parquet` file of the listing. */
  lemma UploadKeysInWalkOrder(prefix: string, files: seq<StagedFile>)
    ensures var keys, idx := UploadKeys(prefix, files), ParquetPositions(files, 0);
            |keys| == |idx| && forall j | 0 <= j < |keys| :: keys[j] == UploadKey(prefix, files[idx[j]])
  {
    var all := seq(|files|, i requires 0 <= i < |files| => UploadKey(prefix, files[i]));
    KeysFollowPositions(prefix, files, all, 0);
    assert files[0..] == files;
  }

  lemma {:induction false} KeysFollowPositions(prefix: string, files: seq<StagedFile>, all: seq<string>, lo: nat)
    requires lo <= |files| == |all|
    requires forall i | 0 <= i < |files| :: all[i] == UploadKey(prefix, files[i])
    ensures var keys, idx := UploadKeys(prefix, files[lo..]), ParquetPositions(files, lo);
            |keys| == |idx| && forall j | 0 <= j < |keys| :: keys[j] == all[idx[j]]
    decreases |files| - lo
  {
    if lo < |files| {
      KeysFollowPositions(prefix, files, all, lo + 1);
      assert files[lo..][1..] == files[lo + 1..];
      var parquet := IsParquet(files[lo]);
      var rest := UploadKeys(prefix, files[lo + 1..]);
      assert parquet ==> UploadKeys(prefix, files[lo..]) == [all[lo]] + rest;
      assert !parquet ==> UploadKeys(prefix, files[lo..]) == rest;
      ConsStep(UploadKeys(prefix, files[lo..]), rest, ParquetPositions(files, lo),
               ParquetPositions(files, lo + 1), all, lo, parquet);
    }
  }

  /** One step of a filtering walk: the head is kept or dropped in both the
      keys and their positions. */
  lemma ConsStep(keys: seq<string>, rest: seq<string>, idx: seq<nat>, ridx: seq<nat>,
                 all: seq<string>, lo: nat, kept: bool)
    requires lo < |all| && forall j | 0 <= j < |ridx| :: ridx[j] < |all|
    requires |rest| == |ridx| && forall j | 0 <= j < |rest| :: rest[j] == all[ridx[j]]
    requires kept ==> keys == [all[lo]] + rest && idx == [lo] + ridx
    requires !kept ==> keys == rest && idx == ridx
    ensures |keys| == |idx| && forall j | 0 <= j < |keys| :: keys[j] == all[idx[j]]
  {
    if kept {
      forall j | 1 <= j < |keys|
        ensures keys[j] == all[idx[j]]
      {
        assert keys[j] == rest[j - 1] && idx[j] == ridx[j - 1];
      }
    }
  }

  /** What the sequential upload loop achieved: the keys uploaded, in order,
      and the key whose upload failed, if one did. */
  datatype UploadReport = UploadReport(uploaded: seq<string>, failed: Option<string>)

  /** Uploads `keys` in order; `ok` says whether the store accepts an upload.
      The first failure raises and ends the loop; nothing is retried or undone. */
  function UploadAll(keys: seq<string>, ok: string -> bool): (r: UploadReport)
    ensures r.uploaded <= keys
    ensures forall i | 0 <= i < |r.uploaded| :: ok(r.uploaded[i])
    ensures r.failed.None? <==> r.uploaded == keys
    ensures r.failed.None? <==> forall i | 0 <= i < |keys| :: ok(keys[i])
    ensures r.failed.Some? ==>
              |r.uploaded| < |keys| && r.failed.value == keys[|r.uploaded|] && !ok(r.failed.value)
  {
    if |keys| == 0 then UploadReport([], None)
    else if !ok(keys[0]) then UploadReport([], Some(keys[0]))
    else
      var rest := UploadAll(keys[1..], ok);
      assert forall i | 1 <= i < |keys| :: keys[i] == keys[1..][i - 1];
      UploadReport([keys[0]] + rest.uploaded, rest.failed)
  }

  /** When the store accepts every key, all of them are uploaded and nothing fails. */
  lemma UploadAllAccepted(keys: seq<string>, ok: string -> bool)
    requires forall i | 0 <= i < |keys| :: ok(keys[i])
    ensures UploadAll(keys, ok) == UploadReport(keys, None)
  {
  }

  // ---- Shape of the keys ----

  /** With a prefix that does not end in a separator (such as "transactions"),
      the key is `prefix/Year=<y>/Month=<mm>/<file>`. */
  lemma UploadKeyShape(prefix: string, f: StagedFile)
    requires prefix != "" && prefix[|prefix| - 1] != '/'
    ensures UploadKey(prefix, f)
            == prefix + "/Year=" + IntToString(f.key.year) + "/Month=" + f.key.month + "/" + f.name
  {
    var y, m, n := IntToString(f.key.year), f.key.month, f.name;
    assert UploadKey(prefix, f) == prefix + "/" + RelPath(f);
    assert RelPath(f) == "Year=" + y + "/Month=" + m + "/" + n;
    assert prefix + "/" + ("Year=" + y + "/Month=" + m + "/" + n)
        == prefix + ("/" + "Year=") + y + "/Month=" + m + "/" + n;
    assert "/" + "Year=" == "/Year=";
  }

  /** The position of the first separator in a path. */
  function FirstSlash(s: string): (i: nat)
    requires '/' in s
    ensures i < |s| && s[i] == '/' && '/' !in s[..i]
  {
    if s[0] == '/' then 0
    else
      assert '/' in s[1..];
      assert s[..1 + FirstSlash(s[1..])] == [s[0]] + s[1..][..FirstSlash(s[1..])];
      1 + FirstSlash(s[1..])
  }

  /** Every key uploaded under such a prefix has that shape, for some staged `.parquet` file. */
  lemma UploadKeysShape(prefix: string, files: seq<StagedFile>, key: string)
    requires prefix != "" && prefix[|prefix| - 1] != '/'
    requires key in UploadKeys(prefix, files)
    ensures exists f | f in files :: IsParquet(f) &&
              key == prefix + "/Year=" + IntToString(f.key.year) + "/Month=" + f.key.month + "/" + f.name
  {
    UploadedKeyOrigin(prefix, files, key);
    var j :| 0 <= j < |files| && IsParquet(files[j]) && key == UploadKey(prefix, files[j]);
    UploadKeyShape(prefix, files[j]);
    assert files[j] in files;
  }

  /** Splitting at the first separator. */
  lemma SplitAtSlash(a: string, b: string, c: string, d: string)
    requires '/' !in a && '/' !in c
    requires a + "/" + b == c + "/" + d
    ensures a == c && b == d
  {
    var s := a + "/" + b;
    assert s[..|a|] == a && s[|a|] == '/';
    assert s[..|c|] == c && s[|c|] == '/';
    var i := FirstSlash(s);
    // the first separator can be neither before nor after the end of `a`, nor of `c`
    assert |a| <= i && |c| <= i;
    assert i <= |a| && i <= |c| by {
      assert s[|a|] in s[..|a| + 1];
      assert s[|c|] in s[..|c| + 1];
    }
    assert a == s[..|a|] == c;
    assert b == s[|a| + 1..] == d;
  }

  /** Dropping a common leading part. */
  lemma DropPrefix(p: string, x: string, y: string)
    requires p + x == p + y
    ensures x == y
  {
    assert x == (p + x)[|p|..];
    assert y == (p + y)[|p|..];
  }

  /** Joining one prefix to two relative paths gives the same key only for the same path. */
  lemma JoinCancel(prefix: string, r1: string, r2: string)
    requires |r1| > 0 && r1[0] != '/' && |r2| > 0 && r2[0] != '/'
    requires Join(prefix, r1) == Join(prefix, r2)
    ensures r1 == r2
  {
    var sep := if prefix == "" || prefix[|prefix| - 1] == '/' then "" else "/";
    var n := |prefix + sep|;
    assert Join(prefix, r1) == prefix + sep + r1;
    assert Join(prefix, r2) == prefix + sep + r2;
    assert r1 == (prefix + sep + r1)[n..];
    assert r2 == (prefix + sep + r2)[n..];
  }

  /** The relative path determines the partition and the file name. */
  lemma RelPathInjective(f: StagedFile, g: StagedFile)
    requires '/' !in f.key.month && '/' !in g.key.month
    requires '/' !in f.name && '/' !in g.name
    requires RelPath(f) == RelPath(g)
    ensures f == g
  {
    var yf, yg := IntToString(f.key.year), IntToString(g.key.year);
    var tf := "Month=" + f.key.month + "/" + f.name;
    var tg := "Month=" + g.key.month + "/" + g.name;
    RelPathSplit(f);
    RelPathSplit(g);
    SplitAtSlash("Year=" + yf, tf, "Year=" + yg, tg);
    DropPrefix("Year=", yf, yg);
    IntToStringInjective(f.key.year, g.key.year);
    SplitAtSlash("Month=" + f.key.month, f.name, "Month=" + g.key.month, g.name);
    DropPrefix("Month=", f.key.month, g.key.month);
  }

  lemma RelPathSplit(f: StagedFile)
    ensures RelPath(f) == ("Year=" + IntToString(f.key.year)) + "/" + ("Month=" + f.key.month + "/" + f.name)
    ensures '/' !in "Year=" + IntToString(f.key.year)
  {
  }

  /** Distinct staged files never share an upload key, so no upload overwrites
      another, as long as month values and file names hold no separator. */
  lemma UploadKeyInjective(prefix: string, f: StagedFile, g: StagedFile)
    requires '/' !in f.key.month && '/' !in g.key.month
    requires '/' !in f.name && '/' !in g.name
    requires UploadKey(prefix, f) == UploadKey(prefix, g)
    ensures f == g
  {
    assert RelPath(f)[0] == 'Y' && RelPath(g)[0] == 'Y';
    JoinCancel(prefix, RelPath(f), RelPath(g));
    RelPathInjective(f, g);
  }
}
