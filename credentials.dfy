/** Credential resolution: when `options.root` is set on a secure server, each
    present credential field is replaced by the bytes read from the file its
    value names, relative to `root` (index.js:65-79). */
module Credentials {
  import opened Values
  import opened Config

  /** The credential fields, in the order `create` visits them. */
  const CredentialKeys: seq<string> := ["cert", "key", "ca", "pfx", "crl"]

  predicate Distinct(s: seq<string>)
  {
    forall i, j :: 0 <= i < j < |s| ==> s[i] != s[j]
  }

  /** `names.filter(key => key in options)`. */
  function Present(fields: map<string, Value>, names: seq<string>): (keys: seq<string>)
  {
    if names == [] then []
    else if names[0] in fields then [names[0]] + Present(fields, names[1..])
    else Present(fields, names[1..])
  }

  /** The filter keeps exactly the names that are keys of the record, each
      once when the names are distinct, in the order of `names`, and never
      grows the list. */
  lemma {:induction false} PresentKeeps(fields: map<string, Value>, names: seq<string>)
    ensures forall k :: k in Present(fields, names) <==> k in names && k in fields
    ensures |Present(fields, names)| <= |names|
    ensures Distinct(names) ==> Distinct(Present(fields, names))
    ensures forall a, b :: 0 <= a < b < |Present(fields, names)| ==>
      Before(names, Present(fields, names)[a], Present(fields, names)[b])
    decreases |names|, 1
  {
    PresentOrdered(fields, names);
    if names != [] {
      PresentKeeps(fields, names[1..]);
      assert forall k :: k in names[1..] ==> k in names;
      assert forall k :: k in names && k != names[0] ==> k in names[1..];
      if Distinct(names) {
        assert Distinct(names[1..]) by {
          forall i, j | 0 <= i < j < |names[1..]| ensures names[1..][i] != names[1..][j] {
            assert names[1..][i] == names[i + 1] && names[1..][j] == names[j + 1];
          }
        }
        assert names[0] !in names[1..];
      }
    }
  }

  /** `x` occurs in `names` before an occurrence of `y`. */
  ghost predicate Before(names: seq<string>, x: string, y: string)
  {
    exists i, j :: 0 <= i < j < |names| && names[i] == x && names[j] == y
  }

  /** The filter keeps the order of `names`: of two kept names, the earlier one
      comes earlier in `names`. */
  lemma {:induction false} PresentOrdered(fields: map<string, Value>, names: seq<string>)
    ensures forall a, b :: 0 <= a < b < |Present(fields, names)| ==>
      Before(names, Present(fields, names)[a], Present(fields, names)[b])
    decreases |names|, 0
  {
    if names != [] {
      var tail := names[1..];
      var rest := Present(fields, tail);
      var kept := Present(fields, names);
      PresentOrdered(fields, tail);
      PresentKeeps(fields, tail);
      forall a, b | 0 <= a < b < |kept|
        ensures Before(names, kept[a], kept[b])
      {
        if names[0] in fields && a == 0 {
          assert kept[b] == rest[b - 1] && rest[b - 1] in tail;
          var j :| 0 <= j < |tail| && tail[j] == rest[b - 1];
          assert names[0] == kept[a] && names[j + 1] == kept[b];
        } else {
          var d := if names[0] in fields then 1 else 0;
          var a', b' := a - d, b - d;
          assert kept[a] == rest[a'] && kept[b] == rest[b'];
          assert Before(tail, rest[a'], rest[b']);
          var i, j :| 0 <= i < j < |tail| && tail[i] == rest[a'] && tail[j] == rest[b'];
          assert names[i + 1] == kept[a] && names[j + 1] == kept[b];
        }
      }
    }
  }

  /** A read result with the paths it asked the filesystem for, in order. */
  datatype Loaded<T> = Loaded(result: Result<T>, paths: seq<string>)

  /** `fs.readFileSync(path.join(root, file))`, with both collaborators given
      as parameters; `None` stands for the collaborator throwing. */
  function LoadOne(root: Value, file: Value,
                   join: (Value, Value) -> Option<string>,
                   read: string -> Option<seq<byte>>): (l: Loaded<Value>)
    ensures l.result.Ok? <==> Loads(root, file, join, read)
    ensures l.result.Ok? ==> l.result.value == Content(root, file, join, read)
    ensures l.paths == if join(root, file).Some? then [join(root, file).value] else []
  {
    match join(root, file)
    case None => Loaded(Err(JoinFailed(root, file)), [])
    case Some(p) =>
      match read(p)
      case None => Loaded(Err(ReadFailed(p)), [p])
      case Some(bytes) => Loaded(Ok(Buf(bytes)), [p])
  }

  /** Both collaborators succeed on this reference. */
  predicate Loads(root: Value, file: Value,
                  join: (Value, Value) -> Option<string>,
                  read: string -> Option<seq<byte>>)
  {
    join(root, file).Some? && read(join(root, file).value).Some?
  }

  /** The buffer a loadable reference resolves to. */
  function Content(root: Value, file: Value,
                   join: (Value, Value) -> Option<string>,
                   read: string -> Option<seq<byte>>): (content: Value)
    requires Loads(root, file, join, read)
  {
    Buf(read(join(root, file).value).value)
  }

  /** `files.map(read)`: the first reference that throws aborts the whole map. */
  function LoadAll(root: Value, files: seq<Value>,
                   join: (Value, Value) -> Option<string>,
                   read: string -> Option<seq<byte>>): (l: Loaded<seq<Value>>)
  {
    if files == [] then Loaded(Ok([]), [])
    else
      var first := LoadOne(root, files[0], join, read);
      if first.result.Err? then Loaded(Err(first.result.error), first.paths)
      else
        var rest := LoadAll(root, files[1..], join, read);
        match rest.result
        case Err(e) => Loaded(Err(e), first.paths + rest.paths)
        case Ok(vs) => Loaded(Ok([first.result.value] + vs), first.paths + rest.paths)
  }

  /** Mapping succeeds exactly when every element loads, and then the new array
      has the old one's length and order, element i being the content read
      from `join(root, files[i])`. */
  lemma {:induction false} LoadAllElementwise(root: Value, files: seq<Value>,
                                              join: (Value, Value) -> Option<string>,
                                              read: string -> Option<seq<byte>>)
    ensures LoadAll(root, files, join, read).result.Ok? <==>
            forall i :: 0 <= i < |files| ==> Loads(root, files[i], join, read)
    ensures LoadAll(root, files, join, read).result.Ok? ==>
            var vs := LoadAll(root, files, join, read).result.value;
            |vs| == |files| &&
            forall i :: 0 <= i < |files| ==> Loads(root, files[i], join, read) && vs[i] == Content(root, files[i], join, read)
  {
    if files != [] {
      LoadAllElementwise(root, files[1..], join, read);
      assert forall i :: 1 <= i < |files| ==> files[i] == files[1..][i - 1];
    }
  }

  /** A successful map reads one path per reference, in array order: the path
      `join(root, files[i])`. */
  lemma {:induction false} LoadAllPaths(root: Value, files: seq<Value>,
                                        join: (Value, Value) -> Option<string>,
                                        read: string -> Option<seq<byte>>)
    ensures var l := LoadAll(root, files, join, read);
      l.result.Ok? ==>
        |l.paths| == |files| &&
        forall i :: 0 <= i < |files| ==> join(root, files[i]).Some? && l.paths[i] == join(root, files[i]).value
  {
    if files != [] {
      LoadAllPaths(root, files[1..], join, read);
      assert forall i :: 1 <= i < |files| ==> files[i] == files[1..][i - 1];
    }
  }

  /** The new value of one credential field: element by element for an array,
      a single read otherwise. */
  function ResolveValue(root: Value, data: Value,
                        join: (Value, Value) -> Option<string>,
                        read: string -> Option<seq<byte>>): (l: Loaded<Value>)
  {
    if data.Arr? then
      var all := LoadAll(root, data.elems, join, read);
      Loaded(if all.result.Ok? then Ok(Arr(all.result.value)) else Err(all.result.error), all.paths)
    else LoadOne(root, data, join, read)
  }

  /** What one field resolves to, in the source's own terms: an array keeps its
      length and order with each element read; any other value is read once. */
  lemma ResolveValueShape(root: Value, data: Value,
                          join: (Value, Value) -> Option<string>,
                          read: string -> Option<seq<byte>>)
    ensures var r := ResolveValue(root, data, join, read);
      data.Arr? && r.result.Ok? ==>
        r.result.value.Arr? && |r.result.value.elems| == |data.elems| &&
        forall i :: 0 <= i < |data.elems| ==>
          Loads(root, data.elems[i], join, read) &&
          r.result.value.elems[i] == Content(root, data.elems[i], join, read)
    ensures var r := ResolveValue(root, data, join, read);
      data.Arr? ==>
        (r.result.Ok? <==> forall i :: 0 <= i < |data.elems| ==> Loads(root, data.elems[i], join, read))
    ensures var r := ResolveValue(root, data, join, read);
      !data.Arr? ==>
        (r.result.Ok? <==> Loads(root, data, join, read)) &&
        (r.result.Ok? ==> r.result.value == Content(root, data, join, read))
  {
    LoadAllElementwise(root, if data.Arr? then data.elems else [], join, read);
  }

  /** The paths one successful field resolution reads: the joined path of
      each array element in order, or the single joined path of the value. */
  lemma ResolveValuePaths(root: Value, data: Value,
                          join: (Value, Value) -> Option<string>,
                          read: string -> Option<seq<byte>>)
    ensures var r := ResolveValue(root, data, join, read);
      r.result.Ok? ==>
        (data.Arr? ==>
           |r.paths| == |data.elems| &&
           forall i :: 0 <= i < |data.elems| ==>
             join(root, data.elems[i]).Some? && r.paths[i] == join(root, data.elems[i]).value) &&
        (!data.Arr? ==> join(root, data).Some? && r.paths == [join(root, data).value])
  {
    LoadAllPaths(root, if data.Arr? then data.elems else [], join, read);
  }

  /** The record, the paths read so far and the exception that stopped the
      resolution, if any. */
  datatype Resolution = Resolution(fields: map<string, Value>, paths: seq<string>, error: Option<Error>)

  /** `parse` of index.js:68-78 for a given root: the field's new value. */
  function Parse(root: Value,
                 join: (Value, Value) -> Option<string>,
                 read: string -> Option<seq<byte>>): (parse: Value -> Loaded<Value>)
  {
    data => ResolveValue(root, data, join, read)
  }

  /** One iteration of the `forEach`: read the field's current value, resolve
      it, and store the result (or stop with the exception, leaving the field). */
  function ResolveStep(r: Resolution, key: string, parse: Value -> Loaded<Value>): (next: Resolution)
  {
    var l := parse(Get(r.fields, key));
    match l.result
    case Err(e) => Resolution(r.fields, r.paths + l.paths, Some(e))
    case Ok(v) => Resolution(r.fields[key := v], r.paths + l.paths, None)
  }

  /** The `forEach` over `keys`, one step at a time, stopping at the first
      exception. */
  function ResolveKeys(fields: map<string, Value>, keys: seq<string>, parse: Value -> Loaded<Value>): (r: Resolution)
    decreases |keys|
  {
    if keys == [] then Resolution(fields, [], None)
    else
      var before := ResolveKeys(fields, keys[..|keys| - 1], parse);
      if before.error.Some? then before
      else ResolveStep(before, keys[|keys| - 1], parse)
  }

  /** The paths the fields under `keys`, as `fields` holds them, read one
      after another. */
  function ReadsOf(fields: map<string, Value>, keys: seq<string>, parse: Value -> Loaded<Value>): (paths: seq<string>)
    decreases |keys|
  {
    if keys == [] then []
    else ReadsOf(fields, keys[..|keys| - 1], parse) + parse(Get(fields, keys[|keys| - 1])).paths
  }

  /** Resolution of the whole record: the credential fields present in it,
      relative to its `root`. */
  function Resolve(fields: map<string, Value>,
                   join: (Value, Value) -> Option<string>,
                   read: string -> Option<seq<byte>>): (r: Resolution)
  {
    ResolveKeys(fields, Present(fields, CredentialKeys), Parse(Get(fields, "root"), join, read))
  }

  /** The resolution stopped at key `j`: the keys before it were resolved, key
      `j` threw `r.error`, and it and the later keys keep their old values. */
  predicate StoppedAt(fields: map<string, Value>, keys: seq<string>, parse: Value -> Loaded<Value>,
                      r: Resolution, j: int)
  {
    0 <= j < |keys| &&
    (forall i :: 0 <= i < j ==>
       parse(Get(fields, keys[i])).result.Ok? &&
       Get(r.fields, keys[i]) == parse(Get(fields, keys[i])).result.value) &&
    parse(Get(fields, keys[j])).result.Err? &&
    r.error == Some(parse(Get(fields, keys[j])).result.error) &&
    (forall i :: j <= i < |keys| ==> Get(r.fields, keys[i]) == Get(fields, keys[i]))
  }

  /** The `forEach` never adds or removes a key and never changes a field
      outside `keys`. */
  lemma {:induction false} ResolveKeysFrame(fields: map<string, Value>, keys: seq<string>,
                                            parse: Value -> Loaded<Value>)
    requires forall i :: 0 <= i < |keys| ==> keys[i] in fields
    ensures var r := ResolveKeys(fields, keys, parse);
      r.fields.Keys == fields.Keys &&
      forall k :: k in fields && k !in keys ==> r.fields[k] == fields[k]
    decreases |keys|
  {
    if keys != [] {
      var pre := keys[..|keys| - 1];
      assert forall i :: 0 <= i < |pre| ==> pre[i] == keys[i];
      ResolveKeysFrame(fields, pre, parse);
      assert keys == pre + [keys[|keys| - 1]];
    }
  }

  /** Without an exception every key resolved and holds its resolved value. */
  lemma {:induction false} ResolveKeysSuccess(fields: map<string, Value>, keys: seq<string>,
                                              parse: Value -> Loaded<Value>)
    requires Distinct(keys)
    requires forall i :: 0 <= i < |keys| ==> keys[i] in fields
    requires ResolveKeys(fields, keys, parse).error.None?
    ensures var r := ResolveKeys(fields, keys, parse);
      forall i :: 0 <= i < |keys| ==>
        parse(Get(fields, keys[i])).result.Ok? &&
        Get(r.fields, keys[i]) == parse(Get(fields, keys[i])).result.value
    decreases |keys|
  {
    if keys != [] {
      var n := |keys|;
      var pre := keys[..n - 1];
      var key := keys[n - 1];
      assert forall i :: 0 <= i < n - 1 ==> pre[i] == keys[i];
      assert Distinct(pre);
      assert key !in pre;
      var before := ResolveKeys(fields, pre, parse);
      assert before.error.None?;
      ResolveKeysSuccess(fields, pre, parse);
      ResolveKeysFrame(fields, pre, parse);
      assert Get(before.fields, key) == Get(fields, key);
    }
  }

  /** Without an exception the `forEach` has read, in key order, exactly the
      paths each field's own resolution reads. */
  lemma {:induction false} ResolveKeysPaths(fields: map<string, Value>, keys: seq<string>,
                                            parse: Value -> Loaded<Value>)
    requires Distinct(keys)
    requires forall i :: 0 <= i < |keys| ==> keys[i] in fields
    ensures var r := ResolveKeys(fields, keys, parse);
      r.error.None? ==> r.paths == ReadsOf(fields, keys, parse)
    decreases |keys|
  {
    if keys != [] && ResolveKeys(fields, keys, parse).error.None? {
      var n := |keys|;
      var pre := keys[..n - 1];
      var key := keys[n - 1];
      assert forall i :: 0 <= i < n - 1 ==> pre[i] == keys[i];
      assert Distinct(pre);
      assert key !in pre;
      var before := ResolveKeys(fields, pre, parse);
      assert before.error.None?;
      ResolveKeysPaths(fields, pre, parse);
      ResolveKeysFrame(fields, pre, parse);
      assert Get(before.fields, key) == Get(fields, key);
    }
  }

  /** With an exception, the resolution stopped at some key, the earlier keys
      already rewritten. */
  lemma {:induction false} ResolveKeysStopped(fields: map<string, Value>, keys: seq<string>,
                                              parse: Value -> Loaded<Value>)
    requires Distinct(keys)
    requires forall i :: 0 <= i < |keys| ==> keys[i] in fields
    requires ResolveKeys(fields, keys, parse).error.Some?
    ensures exists j :: StoppedAt(fields, keys, parse, ResolveKeys(fields, keys, parse), j)
    decreases |keys|
  {
    if keys != [] {
      var n := |keys|;
      var pre := keys[..n - 1];
      var key := keys[n - 1];
      assert forall i :: 0 <= i < n - 1 ==> pre[i] == keys[i];
      assert Distinct(pre);
      assert key !in pre;
      var before := ResolveKeys(fields, pre, parse);
      var r := ResolveKeys(fields, keys, parse);
      ResolveKeysFrame(fields, pre, parse);
      if before.error.Some? {
        ResolveKeysStopped(fields, pre, parse);
        var j :| StoppedAt(fields, pre, parse, before, j);
        assert r == before;
        forall i | j <= i < n ensures Get(r.fields, keys[i]) == Get(fields, keys[i]) {
          if i < n - 1 {
            assert keys[i] == pre[i];
          }
        }
        assert StoppedAt(fields, keys, parse, r, j);
      } else {
        ResolveKeysSuccess(fields, pre, parse);
        var l := parse(Get(fields, key));
        assert Get(before.fields, key) == Get(fields, key);
        assert l.result.Err? && r == Resolution(before.fields, before.paths + l.paths, Some(l.result.error));
        assert StoppedAt(fields, keys, parse, r, n - 1);
      }
    }
  }

  /** Once a step has thrown, the later keys are never visited. */
  lemma {:induction false} ErrorSticks(fields: map<string, Value>, keys: seq<string>, m: nat,
                                       parse: Value -> Loaded<Value>)
    requires m <= |keys|
    requires ResolveKeys(fields, keys[..m], parse).error.Some?
    ensures ResolveKeys(fields, keys, parse) == ResolveKeys(fields, keys[..m], parse)
    decreases |keys|
  {
    if m < |keys| {
      assert keys[..|keys| - 1][..m] == keys[..m];
      ErrorSticks(fields, keys[..|keys| - 1], m, parse);
    } else {
      assert keys[..m] == keys;
    }
  }

  /** Resolution touches only the credential fields present in the record and
      never adds or removes a key; on success each of them holds its resolved
      value, which for an array has the same length and order as before. */
  lemma ResolveChangesOnlyCredentials(fields: map<string, Value>,
                                      join: (Value, Value) -> Option<string>,
                                      read: string -> Option<seq<byte>>)
    ensures var r := Resolve(fields, join, read);
      r.fields.Keys == fields.Keys &&
      (forall k :: k in fields && k !in CredentialKeys ==> r.fields[k] == fields[k]) &&
      (r.error.None? ==>
         forall k :: k in fields && k in CredentialKeys ==>
           ResolveValue(Get(fields, "root"), fields[k], join, read).result.Ok? &&
           r.fields[k] == ResolveValue(Get(fields, "root"), fields[k], join, read).result.value)
  {
    var keys := Present(fields, CredentialKeys);
    var parse := Parse(Get(fields, "root"), join, read);
    PresentKeeps(fields, CredentialKeys);
    assert forall i :: 0 <= i < |keys| ==> keys[i] in keys;
    ResolveKeysFrame(fields, keys, parse);
    var r := Resolve(fields, join, read);
    if r.error.None? {
      assert Distinct(CredentialKeys);
      ResolveKeysSuccess(fields, keys, parse);
      forall k | k in fields && k in CredentialKeys
        ensures ResolveValue(Get(fields, "root"), fields[k], join, read).result.Ok?
        ensures r.fields[k] == ResolveValue(Get(fields, "root"), fields[k], join, read).result.value
      {
        assert k in keys;
        var i :| 0 <= i < |keys| && keys[i] == k;
        assert parse(Get(fields, k)) == ResolveValue(Get(fields, "root"), fields[k], join, read);
      }
    }
  }

  /** A successful resolution has read, in the order of `CredentialKeys`, the
      paths of the present credential fields, each as `ResolveValuePaths`
      describes. */
  lemma ResolvePaths(fields: map<string, Value>,
                     join: (Value, Value) -> Option<string>,
                     read: string -> Option<seq<byte>>)
    ensures var r := Resolve(fields, join, read);
      r.error.None? ==>
        r.paths == ReadsOf(fields, Present(fields, CredentialKeys), Parse(Get(fields, "root"), join, read))
  {
    var keys := Present(fields, CredentialKeys);
    PresentKeeps(fields, CredentialKeys);
    assert Distinct(CredentialKeys);
    assert forall i :: 0 <= i < |keys| ==> keys[i] in keys;
    ResolveKeysPaths(fields, keys, Parse(Get(fields, "root"), join, read));
  }

  /** A field other than the credential fields reads the same after resolution. */
  lemma ResolveKeepsField(fields: map<string, Value>, name: string,
                          join: (Value, Value) -> Option<string>,
                          read: string -> Option<seq<byte>>)
    requires name !in CredentialKeys
    ensures Get(Resolve(fields, join, read).fields, name) == Get(fields, name)
  {
    ResolveChangesOnlyCredentials(fields, join, read);
  }

  /** The fold over one more key is one more step, unless it has already
      stopped. */
  lemma ResolveKeysSnoc(fields: map<string, Value>, keys: seq<string>, i: nat,
                        parse: Value -> Loaded<Value>)
    requires i < |keys|
    requires ResolveKeys(fields, keys[..i], parse).error.None?
    ensures ResolveKeys(fields, keys[..i + 1], parse) == ResolveStep(ResolveKeys(fields, keys[..i], parse), keys[i], parse)
  {
    assert keys[..i + 1][..i] == keys[..i];
  }

  /** A step depends on the paths read before it only by extending them. */
  lemma StepExtendsPaths(fields: map<string, Value>, paths: seq<string>, key: string,
                         parse: Value -> Loaded<Value>)
    ensures var s := ResolveStep(Resolution(fields, [], None), key, parse);
      ResolveStep(Resolution(fields, paths, None), key, parse) == Resolution(s.fields, paths + s.paths, s.error)
  {
  }

  /** The `parse` callback of index.js:68-78 on the options object: reads
      `options[key]` and `options.root`, and on success overwrites
      `options[key]`. On an exception the field is left as it was. */
  method ParseField(opts: Options, key: string,
                    join: (Value, Value) -> Option<string>,
                    read: string -> Option<seq<byte>>)
    returns (paths: seq<string>, error: Option<Error>)
    modifies opts
    ensures var r := ResolveStep(Resolution(old(opts.fields), [], None), key,
                                 Parse(Get(old(opts.fields), "root"), join, read));
      opts.fields == r.fields && paths == r.paths && error == r.error
    ensures forall k :: k != key ==> Get(opts.fields, k) == Get(old(opts.fields), k)
  {
    var data := Get(opts.fields, key);
    var root := Get(opts.fields, "root");
    // `Array.isArray(data) ? data.map(read) : read(data)`
    var loaded := ResolveValue(root, data, join, read);
    assert loaded == Parse(root, join, read)(data);
    paths := loaded.paths;
    if loaded.result.Err? {
      error := Some(loaded.result.error);
    } else {
      error := None;
      opts.fields := opts.fields[key := loaded.result.value];
    }
  }

  /** The in-place rewrite of index.js:65-79: filter the credential keys, then
      visit them in order, replacing each field by what it resolves to. An
      exception leaves the fields already visited rewritten. */
  method ResolveInPlace(opts: Options,
                        join: (Value, Value) -> Option<string>,
                        read: string -> Option<seq<byte>>)
    returns (paths: seq<string>, error: Option<Error>)
    modifies opts
    ensures Resolution(opts.fields, paths, error) == Resolve(old(opts.fields), join, read)
  {
    ghost var original := opts.fields;
    ghost var parse := Parse(Get(original, "root"), join, read);
    var keys := Present(opts.fields, CredentialKeys);
    assert forall k :: k in keys ==> k in CredentialKeys by {
      PresentKeeps(original, CredentialKeys);
    }
    paths, error := [], None;
    var i := 0;
    while i < |keys|
      invariant 0 <= i <= |keys|
      invariant Get(opts.fields, "root") == Get(original, "root")
      invariant Resolution(opts.fields, paths, None) == ResolveKeys(original, keys[..i], parse)
    {
      var key := keys[i];
      assert key in keys && key != "root";
      ghost var before := Resolution(opts.fields, paths, None);
      StepExtendsPaths(opts.fields, paths, key, parse);
      var found, failure := ParseField(opts, key, join, read);
      ResolveKeysSnoc(original, keys, i, parse);
      paths := paths + found;
      assert Resolution(opts.fields, paths, failure) == ResolveKeys(original, keys[..i + 1], parse);
      if failure.Some? {
        error := failure;
        ErrorSticks(original, keys, i + 1, parse);
        return;
      }
      i := i + 1;
    }
    assert keys[..i] == keys;
  }
}
