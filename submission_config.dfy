/**
 * The ELOAD configuration: a nested dictionary written through key paths
 * (`set`, `pop`, `cfg[key] = value`), stamped with the package version on its
 * first write, and a backup that rotates `<file>.1`, `<file>.2`, ... before
 * the file is rewritten.  YAML loading and dumping are not modelled; the
 * files of the configuration directory are a map from path to content.
 */
module SubmissionConfig {
  import opened Wrappers
  import opened Text
  import opened JsonValues

  // ---------------------------------------------------------------------
  // Key paths into nested dictionaries

  /** The value a key path leads to, when every step is a dictionary holding the key. */
  function GetIn(node: Json, path: seq<string>): Option<Json>
  {
    if path == [] then Some(node)
    else if node.JObj? && path[0] in node.fields then GetIn(node.fields[path[0]], path[1..])
    else None
  }

  /** The value at a key path of the configuration (what `query` reads back). */
  function Get(content: map<string, Json>, path: seq<string>): Option<Json>
  {
    GetIn(JObj(content), path)
  }

  /** A one-key path reads that key of a dictionary. */
  lemma GetInKey(node: Json, k: string)
    ensures GetIn(node, [k]) == if node.JObj? && k in node.fields then Some(node.fields[k]) else None
  {
    assert [k][1..] == [];
  }

  /** Reading along `p + q` reads along `p`, then along `q` from there. */
  lemma {:induction false} GetInAppend(node: Json, p: seq<string>, q: seq<string>)
    ensures GetIn(node, p + q) == match GetIn(node, p) case Some(n) => GetIn(n, q) case None => None
    decreases |p|
  {
    if p != [] {
      assert (p + q)[0] == p[0] && (p + q)[1..] == p[1..] + q;
      if node.JObj? && p[0] in node.fields {
        GetInAppend(node.fields[p[0]], p[1..], q);
      }
    } else {
      assert p + q == q;
    }
  }

  /** Two key paths that part ways: they name different keys at some common depth. */
  ghost predicate Diverge(p: seq<string>, q: seq<string>)
  {
    exists i :: 0 <= i < |p| && i < |q| && p[i] != q[i]
  }

  /**
   * The walk of `set`: a missing key gets a fresh dictionary, then the last
   * key is assigned.  Reaching a value that is not a dictionary raises
   * TypeError (a string or list cannot be indexed or assigned by a key).
   */
  function SetIn(node: Json, path: seq<string>, value: Json): (r: Result<Json>)
    requires path != []
    ensures r.Ok? ==> r.value.JObj?
    decreases |path|
  {
    if !node.JObj? then Err("TypeError")
    else if |path| == 1 then Ok(JObj(node.fields[path[0] := value]))
    else
      var child := if path[0] in node.fields then node.fields[path[0]] else JObj(map[]);
      match SetIn(child, path[1..], value)
      case Err(e) => Err(e)
      case Ok(c) => Ok(JObj(node.fields[path[0] := c]))
  }

  /** `path in node` for the value the walk of `pop` has reached. */
  function MemberOf(node: Json, key: string): Result<bool>
  {
    match node
    case JObj(f) => Ok(key in f)
    case JStr(s) => Ok(Contains(s, key))
    case JList(items) => Ok(JStr(key) in items)
    case _ => Err("TypeError")
  }

  /**
   * The walk of `pop`: a key that is not `in` the value reached gives the
   * default (for a string `in` is a substring test, for a list an element
   * test); a key that is `in` a string or list raises TypeError when used as
   * an index; the last key is popped from a dictionary, with the default when
   * absent, and `pop` on anything else raises.  Gives the popped value and
   * the new node.
   */
  function PopIn(node: Json, path: seq<string>, default: Json): Result<(Json, Json)>
    requires path != []
    decreases |path|
  {
    if |path| == 1 then
      if !node.JObj? then Err(if node.JList? then "TypeError" else "AttributeError")
      else if path[0] in node.fields then Ok((node.fields[path[0]], JObj(node.fields - {path[0]})))
      else Ok((default, node))
    else
      match MemberOf(node, path[0])
      case Err(e) => Err(e)
      case Ok(isMember) =>
        if !isMember then Ok((default, node))
        else if !node.JObj? then Err("TypeError")
        else
          match PopIn(node.fields[path[0]], path[1..], default)
          case Err(e) => Err(e)
          case Ok(res) => Ok((res.0, JObj(node.fields[path[0] := res.1])))
  }

  /** `set(*path, value=...)` on the content (after the version stamp); an empty path raises IndexError. */
  function SetPath(content: map<string, Json>, path: seq<string>, value: Json): Result<map<string, Json>>
  {
    if path == [] then Err("IndexError")
    else
      match SetIn(JObj(content), path, value)
      case Err(e) => Err(e)
      case Ok(n) => Ok(n.fields)
  }

  /** `pop(*path, default=...)` on the content: the popped value and the new content. */
  function PopPath(content: map<string, Json>, path: seq<string>, default: Json): Result<(Json, map<string, Json>)>
  {
    if path == [] then Err("IndexError")
    else
      match PopIn(JObj(content), path, default)
      case Err(e) => Err(e)
      case Ok(res) => if res.1.JObj? then Ok((res.0, res.1.fields)) else Err("TypeError")
  }

  /** `_set_version`: an empty configuration receives the version before its first write. */
  function WithVersion(content: map<string, Json>, version: string): map<string, Json>
  {
    if content == map[] then map["version" := JStr(version)] else content
  }

  // ---------------------------------------------------------------------
  // What set and pop promise

  /** After `set`, the path reads back the value, and so does every path below it. */
  lemma {:induction false} SetInThenGet(node: Json, path: seq<string>, value: Json, rest: seq<string>)
    requires path != []
    requires SetIn(node, path, value).Ok?
    ensures GetIn(SetIn(node, path, value).value, path + rest) == GetIn(value, rest)
    decreases |path|
  {
    var r := SetIn(node, path, value).value;
    assert (path + rest)[0] == path[0];
    assert (path + rest)[1..] == path[1..] + rest;
    if |path| > 1 {
      var child := if path[0] in node.fields then node.fields[path[0]] else JObj(map[]);
      SetInThenGet(child, path[1..], value, rest);
    }
  }

  /** `set` changes nothing along a path that parts ways with its own. */
  lemma {:induction false} SetInKeepsOthers(node: Json, path: seq<string>, value: Json, q: seq<string>)
    requires path != []
    requires SetIn(node, path, value).Ok?
    requires Diverge(path, q)
    ensures GetIn(SetIn(node, path, value).value, q) == GetIn(node, q)
    decreases |path|
  {
    var i :| 0 <= i < |path| && i < |q| && path[i] != q[i];
    if i > 0 {
      assert path[0] == q[0] || Diverge(path, q);
      if path[0] == q[0] {
        var child := if path[0] in node.fields then node.fields[path[0]] else JObj(map[]);
        assert path[1..][i - 1] == path[i] && q[1..][i - 1] == q[i];
        SetInKeepsOthers(child, path[1..], value, q[1..]);
        if path[0] !in node.fields {
          GetInFreshDictionary(q[1..]);
        }
      }
    }
  }

  lemma GetInFreshDictionary(q: seq<string>)
    requires q != []
    ensures GetIn(JObj(map[]), q) == None
  {
  }

  /**
   * `set` fails exactly when the walk reaches a value that is not a
   * dictionary: some proper prefix of the path leads to a non-dictionary.
   */
  lemma {:induction false} SetInFails(node: Json, path: seq<string>, value: Json)
    requires path != []
    ensures SetIn(node, path, value).Err? <==>
      exists k :: 0 <= k < |path| && GetIn(node, path[..k]).Some? && !GetIn(node, path[..k]).value.JObj?
    decreases |path|
  {
    assert path[..0] == [];
    if node.JObj? && |path| > 1 {
      var child := if path[0] in node.fields then node.fields[path[0]] else JObj(map[]);
      SetInFails(child, path[1..], value);
      forall k | 1 <= k < |path| ensures GetIn(node, path[..k]) == (if path[0] in node.fields then GetIn(child, path[1..][..k - 1]) else None) {
        assert path[..k][0] == path[0];
        assert path[..k][1..] == path[1..][..k - 1];
      }
      if path[0] !in node.fields {
        forall k | 0 <= k < |path| - 1 ensures GetIn(child, path[1..][..k]).Some? ==> GetIn(child, path[1..][..k]).value.JObj? {
          if k > 0 {
            GetInFreshDictionary(path[1..][..k]);
          }
        }
      }
      if SetIn(node, path, value).Err? {
        var k :| 0 <= k < |path| - 1 && GetIn(child, path[1..][..k]).Some? && !GetIn(child, path[1..][..k]).value.JObj?;
        assert GetIn(node, path[..k + 1]).Some?;
      }
      if exists k :: 0 <= k < |path| && GetIn(node, path[..k]).Some? && !GetIn(node, path[..k]).value.JObj? {
        var k :| 0 <= k < |path| && GetIn(node, path[..k]).Some? && !GetIn(node, path[..k]).value.JObj?;
        assert k >= 1;
        assert GetIn(child, path[1..][..k - 1]).Some?;
      }
    }
  }

  /** `pop` returns what the path held, else the default, and afterwards the path holds nothing. */
  lemma {:induction false} PopInResult(node: Json, path: seq<string>, default: Json)
    requires path != []
    requires PopIn(node, path, default).Ok?
    ensures PopIn(node, path, default).value.0 == GetIn(node, path).GetOr(default)
    ensures GetIn(PopIn(node, path, default).value.1, path) == None
    decreases |path|
  {
    if |path| > 1 && node.JObj? && path[0] in node.fields {
      PopInResult(node.fields[path[0]], path[1..], default);
    }
  }

  /** `pop` on a path that does not exist changes nothing. */
  lemma {:induction false} PopInMissing(node: Json, path: seq<string>, default: Json)
    requires path != []
    requires PopIn(node, path, default).Ok?
    requires GetIn(node, path).None?
    ensures PopIn(node, path, default).value.1 == node
    decreases |path|
  {
    if |path| > 1 && node.JObj? && path[0] in node.fields {
      PopInMissing(node.fields[path[0]], path[1..], default);
      assert node.fields[path[0] := node.fields[path[0]]] == node.fields;
    }
  }

  /** `pop` removes only the leaf: a path that parts ways with the popped one reads the same. */
  lemma {:induction false} PopInKeepsOthers(node: Json, path: seq<string>, default: Json, q: seq<string>)
    requires path != []
    requires PopIn(node, path, default).Ok?
    requires Diverge(path, q)
    ensures GetIn(PopIn(node, path, default).value.1, q) == GetIn(node, q)
    decreases |path|
  {
    var i :| 0 <= i < |path| && i < |q| && path[i] != q[i];
    if i > 0 && |path| > 1 && node.JObj? && path[0] in node.fields && path[0] == q[0] {
      assert path[1..][i - 1] == path[i] && q[1..][i - 1] == q[i];
      PopInKeepsOthers(node.fields[path[0]], path[1..], default, q[1..]);
    }
  }

  /** A missing path written by `set` reads back as the dictionary `set` created for its last key. */
  lemma {:induction false} SetInCreates(node: Json, pre: seq<string>, k: string, value: Json)
    requires SetIn(node, pre + [k], value).Ok?
    requires GetIn(node, pre).None? || GetIn(node, pre) == Some(JObj(map[]))
    ensures GetIn(SetIn(node, pre + [k], value).value, pre) == Some(JObj(map[k := value]))
    decreases |pre|
  {
    if pre != [] {
      assert (pre + [k])[0] == pre[0];
      assert (pre + [k])[1..] == pre[1..] + [k];
      var child := if pre[0] in node.fields then node.fields[pre[0]] else JObj(map[]);
      if pre[0] !in node.fields && pre[1..] != [] {
        GetInFreshDictionary(pre[1..]);
      }
      SetInCreates(child, pre[1..], k, value);
    }
  }

  /**
   * A `set` one key below an existing value succeeds only when that value is
   * a dictionary, which then holds the new value under the key and is
   * otherwise unchanged.
   */
  lemma {:induction false} SetInUpdates(node: Json, pre: seq<string>, k: string, value: Json, v: Json)
    requires SetIn(node, pre + [k], value).Ok?
    requires GetIn(node, pre) == Some(v)
    ensures v.JObj?
    ensures GetIn(SetIn(node, pre + [k], value).value, pre) == Some(JObj(v.fields[k := value]))
    decreases |pre|
  {
    if pre == [] {
      assert pre + [k] == [k];
    } else {
      assert (pre + [k])[0] == pre[0];
      assert (pre + [k])[1..] == pre[1..] + [k];
      SetInUpdates(node.fields[pre[0]], pre[1..], k, value, v);
    }
  }

  /** Two configurations that agree on every top-level key but `key`. */
  ghost predicate SameExcept(a: map<string, Json>, b: map<string, Json>, key: string)
  {
    a - {key} == b - {key}
  }

  lemma GetOutside(a: map<string, Json>, b: map<string, Json>, key: string, q: seq<string>)
    requires SameExcept(a, b, key)
    requires q != [] && q[0] != key
    ensures Get(a, q) == Get(b, q)
  {
    assert q[0] in a <==> q[0] in a - {key};
    assert q[0] in b <==> q[0] in b - {key};
    if q[0] in a {
      assert a[q[0]] == (a - {key})[q[0]];
      assert b[q[0]] == (b - {key})[q[0]];
    }
  }

  /** `set` touches only the top-level key its path starts with, and that key then exists. */
  lemma SetPathOutside(content: map<string, Json>, path: seq<string>, value: Json)
    requires SetPath(content, path, value).Ok?
    ensures path[0] in SetPath(content, path, value).value
    ensures SameExcept(content, SetPath(content, path, value).value, path[0])
  {
  }

  /** A nested `pop` touches only the top-level key its path starts with, and removes no top-level key. */
  lemma PopPathOutside(content: map<string, Json>, path: seq<string>, default: Json)
    requires |path| >= 2
    requires PopPath(content, path, default).Ok?
    ensures PopPath(content, path, default).value.1.Keys == content.Keys
    ensures SameExcept(content, PopPath(content, path, default).value.1, path[0])
  {
  }

  /** A two-key `pop` below an existing top-level key succeeds exactly when that key holds a dictionary. */
  lemma PopPathNested(content: map<string, Json>, k: string, f: string, default: Json)
    requires k in content
    ensures PopPath(content, [k, f], default).Ok? <==> content[k].JObj?
    ensures PopPath(content, [k, f], default).Ok? ==>
      k in PopPath(content, [k, f], default).value.1 && PopPath(content, [k, f], default).value.1[k].JObj?
  {
    var path := [k, f];
    assert path[1..] == [f];
    assert MemberOf(JObj(content), k) == Ok(true);
    var inner := PopIn(content[k], [f], default);
    assert inner.Ok? <==> content[k].JObj?;
    if inner.Ok? {
      assert PopIn(JObj(content), path, default) == Ok((inner.value.0, JObj(content[k := inner.value.1])));
      assert inner.value.1.JObj?;
    } else {
      assert PopIn(JObj(content), path, default).Err?;
    }
  }

  /** The first write to an empty configuration records the version; a non-empty one keeps what it has. */
  lemma VersionStamp(content: map<string, Json>, version: string)
    ensures content == map[] ==> Get(WithVersion(content, version), ["version"]) == Some(JStr(version))
    ensures content != map[] ==> forall q :: Get(WithVersion(content, version), q) == Get(content, q)
  {
    if content == map[] {
      var c := WithVersion(content, version);
      assert "version" in c && c["version"] == JStr(version);
      assert ["version"][1..] == [];
      assert GetIn(JObj(c), ["version"]) == GetIn(c["version"], []);
    }
  }

  // ---------------------------------------------------------------------
  // Backup rotation

  /** `f'{file_name}.{suffix}'`. */
  function BackupName(file: string, k: nat): string
  {
    file + "." + NatToString(k)
  }

  lemma BackupNameInjective(file: string, j: nat, k: nat)
    requires BackupName(file, j) == BackupName(file, k)
    ensures j == k
  {
    var n := |file| + 1;
    assert NatToString(j) == BackupName(file, j)[n..];
    assert NatToString(k) == BackupName(file, k)[n..];
    NatToStringInjective(j, k);
  }

  lemma BackupNameNotFile(file: string, k: nat)
    ensures BackupName(file, k) != file
  {
    assert |BackupName(file, k)| > |file|;
  }

  /** `os.rename(src, dst)`, replacing `dst` when it exists. */
  function Rename(files: map<string, string>, src: string, dst: string): map<string, string>
    requires src in files
  {
    (files - {src})[dst := files[src]]
  }

  /** Whether `x` is one of `<file>.1` .. `<file>.n`. */
  ghost predicate IsBackupUpTo(x: string, file: string, n: nat)
  {
    x in BackupNames(file, n)
  }

  /** `<file>.1` .. `<file>.n`. */
  ghost function BackupNames(file: string, n: nat): set<string>
  {
    set k | 1 <= k <= n :: BackupName(file, k)
  }

  /**
   * The rotation with `n` the first free suffix: the file became `<file>.1`,
   * each `<file>.k` (k < n) became `<file>.k+1`, every other file is as it was.
   */
  ghost predicate Rotated(before: map<string, string>, after: map<string, string>, file: string, n: nat)
    requires file in before
    requires forall k :: 1 <= k < n ==> BackupName(file, k) in before
  {
    n >= 1 &&
    file !in after &&
    BackupName(file, 1) in after && after[BackupName(file, 1)] == before[file] &&
    (forall k :: 2 <= k <= n ==> BackupName(file, k) in after && after[BackupName(file, k)] == before[BackupName(file, k - 1)]) &&
    (forall x :: x != file && !IsBackupUpTo(x, file, n) ==> (x in after <==> x in before) && (x in after ==> after[x] == before[x]))
  }

  // ---------------------------------------------------------------------
  // The configuration object

  class EloadConfig {
    /** The configuration as a nested dictionary. */
    var content: map<string, Json>
    /** The YAML file the configuration is loaded from and written to. */
    var configFile: string
    /** The package version `_set_version` records. */
    const version: string

    constructor(configFile: string, version: string)
      ensures content == map[] && this.configFile == configFile && this.version == version
    {
      content := map[];
      this.configFile := configFile;
      this.version := version;
    }

    /** `is_empty`: the content is an empty dictionary. */
    predicate IsEmpty()
      reads this
    {
      content == map[]
    }

    /** `clear`. */
    method Clear()
      modifies this
      ensures IsEmpty()
      ensures configFile == old(configFile)
    {
      content := map[];
    }

    /** `item in config`. */
    predicate Has(item: string)
      reads this
    {
      item in content
    }

    /** `_set_version`: records the version when the content is empty. */
    method SetVersion()
      modifies this
      ensures content == WithVersion(old(content), version)
      ensures configFile == old(configFile)
    {
      if IsEmpty() {
        content := content["version" := JStr(version)];
      }
    }

    /** `config[item] = value`: stamps the version, then assigns the top-level key. */
    method SetItem(item: string, value: Json)
      modifies this
      ensures content == WithVersion(old(content), version)[item := value]
      ensures Get(content, [item]) == Some(value)
      ensures configFile == old(configFile)
    {
      SetVersion();
      content := content[item := value];
      assert [item][1..] == [];
      assert GetIn(JObj(content), [item]) == GetIn(value, []);
    }

    /**
     * `set(*path, value=...)`: stamps the version, then writes the value at
     * the path, creating missing dictionaries.  On an error the version stamp
     * has already happened and the rest of the content is untouched.
     */
    method Set(path: seq<string>, value: Json) returns (r: Result<()>)
      modifies this
      ensures var stamped := WithVersion(old(content), version);
        match SetPath(stamped, path, value)
        case Ok(c) => r.Ok? && content == c
        case Err(e) => r == Err(e) && content == stamped
      ensures r.Ok? ==> Get(content, path) == Some(value)
      ensures configFile == old(configFile)
    {
      SetVersion();
      var result := SetPath(content, path, value);
      match result {
        case Ok(c) =>
          SetInThenGet(JObj(content), path, value, []);
          assert path + [] == path;
          content := c;
          r := Ok(());
        case Err(e) =>
          r := Err(e);
      }
    }

    /**
     * `pop(*path, default=...)`: the value at the path, removed from the
     * content, or the default when the path does not exist.
     */
    method Pop(path: seq<string>, default: Json) returns (r: Result<Json>)
      modifies this
      ensures match PopPath(old(content), path, default)
        case Ok(res) => r == Ok(res.0) && content == res.1
        case Err(e) => r == Err(e) && content == old(content)
      ensures r.Ok? ==> r.value == Get(old(content), path).GetOr(default) && Get(content, path) == None
      ensures r.Ok? && Get(old(content), path).None? ==> content == old(content)
      ensures configFile == old(configFile)
    {
      match PopPath(content, path, default) {
        case Ok(res) =>
          PopInResult(JObj(content), path, default);
          if Get(content, path).None? {
            PopInMissing(JObj(content), path, default);
          }
          content := res.1;
          r := Ok(res.0);
        case Err(e) =>
          r := Err(e);
      }
    }

    /**
     * `backup`: when the configuration file exists, finds the first free
     * suffix n, renames `<file>.k-1` to `<file>.k` for k = n down to 2, then
     * the file to `<file>.1`.
     */
    method Backup(files: map<string, string>) returns (after: map<string, string>)
      ensures configFile !in files ==> after == files
      ensures configFile in files ==> exists n ::
        1 <= n && BackupName(configFile, n) !in files &&
        (forall k :: 1 <= k < n ==> BackupName(configFile, k) in files) &&
        Rotated(files, after, configFile, n)
    {
      if configFile !in files {
        return files;
      }
      var n := FirstFreeSuffix(files, configFile);
      after := RotateBackups(files, configFile, n);
    }
  }

  /** The `while os.path.exists(...)` loop: the first suffix with no backup file. */
  method FirstFreeSuffix(files: map<string, string>, file: string) returns (n: nat)
    ensures n >= 1 && BackupName(file, n) !in files
    ensures forall k :: 1 <= k < n ==> BackupName(file, k) in files
  {
    n := 1;
    while BackupName(file, n) in files
      invariant n >= 1
      invariant forall k :: 1 <= k < n ==> BackupName(file, k) in files
      decreases files.Keys - set k | 1 <= k < n :: BackupName(file, k)
    {
      ghost var taken := set k | 1 <= k < n :: BackupName(file, k);
      ghost var next := set k | 1 <= k < n + 1 :: BackupName(file, k);
      assert next == taken + {BackupName(file, n)};
      if BackupName(file, n) in taken {
        var k :| 1 <= k < n && BackupName(file, k) == BackupName(file, n);
        BackupNameInjective(file, k, n);
      }
      n := n + 1;
    }
  }

  /** The state of the rotation once `<file>.i` .. `<file>.n-1` have moved up by one. */
  ghost predicate ShiftedDownTo(before: map<string, string>, after: map<string, string>, file: string, n: nat, i: nat)
    requires file in before
    requires forall k :: 1 <= k < n ==> BackupName(file, k) in before
  {
    1 <= i <= n &&
    BackupName(file, i) !in after &&
    (forall k :: i < k <= n ==> BackupName(file, k) in after && after[BackupName(file, k)] == before[BackupName(file, k - 1)]) &&
    (forall k :: 1 <= k < i ==> BackupName(file, k) in after && after[BackupName(file, k)] == before[BackupName(file, k)]) &&
    file in after && after[file] == before[file] &&
    (forall x :: x != file && !IsBackupUpTo(x, file, n) ==> (x in after <==> x in before) && (x in after ==> after[x] == before[x]))
  }

  lemma ShiftStart(files: map<string, string>, file: string, n: nat)
    requires file in files && n >= 1 && BackupName(file, n) !in files
    requires forall k :: 1 <= k < n ==> BackupName(file, k) in files
    ensures ShiftedDownTo(files, files, file, n, n)
  {
  }

  lemma ShiftStep(before: map<string, string>, after: map<string, string>, file: string, n: nat, i: nat)
    requires file in before
    requires forall k :: 1 <= k < n ==> BackupName(file, k) in before
    requires ShiftedDownTo(before, after, file, n, i) && i > 1
    ensures BackupName(file, i - 1) in after
    ensures ShiftedDownTo(before, Rename(after, BackupName(file, i - 1), BackupName(file, i)), file, n, i - 1)
  {
    var src := BackupName(file, i - 1);
    var dst := BackupName(file, i);
    var next := Rename(after, src, dst);
    ShiftNamesApart(file, n, i);
    assert next[dst] == before[src];
    assert src !in next;
    assert file in next && next[file] == before[file];
    forall k | i - 1 < k <= n
      ensures BackupName(file, k) in next && next[BackupName(file, k)] == before[BackupName(file, k - 1)]
    {
    }
    forall k | 1 <= k < i - 1
      ensures BackupName(file, k) in next && next[BackupName(file, k)] == before[BackupName(file, k)]
    {
    }
    forall x | x != file && !IsBackupUpTo(x, file, n)
      ensures (x in next <==> x in before) && (x in next ==> next[x] == before[x])
    {
    }
  }

  /** The two names one rotation step renames differ from each other, from the file and from every other backup name. */
  lemma ShiftNamesApart(file: string, n: nat, i: nat)
    requires 1 < i <= n
    ensures BackupName(file, i - 1) != BackupName(file, i)
    ensures BackupName(file, i - 1) != file && BackupName(file, i) != file
    ensures IsBackupUpTo(BackupName(file, i - 1), file, n) && IsBackupUpTo(BackupName(file, i), file, n)
    ensures forall k :: 1 <= k <= n && k != i - 1 && k != i ==>
      BackupName(file, k) != BackupName(file, i - 1) && BackupName(file, k) != BackupName(file, i)
  {
    var src := BackupName(file, i - 1);
    var dst := BackupName(file, i);
    BackupNameNotFile(file, i - 1);
    BackupNameNotFile(file, i);
    forall k | 1 <= k <= n && k != i - 1 && k != i
      ensures BackupName(file, k) != src && BackupName(file, k) != dst
    {
      if BackupName(file, k) == src { BackupNameInjective(file, k, i - 1); }
      if BackupName(file, k) == dst { BackupNameInjective(file, k, i); }
    }
    if src == dst { BackupNameInjective(file, i - 1, i); }
    assert IsBackupUpTo(src, file, n) && IsBackupUpTo(dst, file, n);
  }

  lemma ShiftFinish(before: map<string, string>, after: map<string, string>, file: string, n: nat)
    requires file in before
    requires forall k :: 1 <= k < n ==> BackupName(file, k) in before
    requires ShiftedDownTo(before, after, file, n, 1)
    ensures Rotated(before, Rename(after, file, BackupName(file, 1)), file, n)
  {
    BackupNameNotFile(file, 1);
    forall k | 2 <= k <= n ensures BackupName(file, k) != BackupName(file, 1) {
      if BackupName(file, k) == BackupName(file, 1) { BackupNameInjective(file, k, 1); }
    }
    assert IsBackupUpTo(BackupName(file, 1), file, n);
  }

  /** The `for` loop over the suffixes from the highest down, then the rename of the file itself. */
  method RotateBackups(files: map<string, string>, file: string, n: nat) returns (after: map<string, string>)
    requires file in files && n >= 1 && BackupName(file, n) !in files
    requires forall k :: 1 <= k < n ==> BackupName(file, k) in files
    ensures Rotated(files, after, file, n)
  {
    after := files;
    ShiftStart(files, file, n);
    var i := n;
    while i > 1
      invariant ShiftedDownTo(files, after, file, n, i)
    {
      ShiftStep(files, after, file, n, i);
      after := Rename(after, BackupName(file, i - 1), BackupName(file, i));
      i := i - 1;
    }
    ShiftFinish(files, after, file, n);
    after := Rename(after, file, BackupName(file, 1));
  }
}
