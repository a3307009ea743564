/** End-to-end calls of `create`, worked out on the model. */
module Scenarios {
  import opened Values
  import opened Config
  import opened Credentials
  import opened Callbacks
  import opened Create

  /** `create({ port: 8080 }, { listening })`: plain HTTP, the constructor gets
      no options, and `listen` is called on 8080 with the callback. */
  lemma PlainServerListens(join: (Value, Value) -> Option<string>, read: string -> Option<seq<byte>>)
    ensures var o := CreateOutcome(map["port" := Num(8080)], Obj(map["listening" := Func(1)]), join, read);
      o == Outcome(Ok(Handle(Http, true)), map["port" := Num(8080)],
                   [Construct(Http, None), Listen(Num(8080), 1)])
  {
    var fn := Obj(map["listening" := Func(1)]);
    CollectKeeps(fn, CallbackNames);
    assert NormalizedCallbacks(fn).value == map["listening" := 1];
  }

  /** `create({}, {})`'s normalisation: a callback object holding nothing keeps nothing. */
  lemma NoCallbacks()
    ensures NormalizedCallbacks(Obj(map[])) == Ok(map[])
  {
    CollectKeeps(Obj(map[]), CallbackNames);
  }

  /** A record holding `cert` and `key` but no other credential field is
      resolved in two steps, `cert` first. */
  lemma CertThenKey(fields: map<string, Value>, join: (Value, Value) -> Option<string>,
                    read: string -> Option<seq<byte>>)
    requires "cert" in fields && "key" in fields
    requires "ca" !in fields && "pfx" !in fields && "crl" !in fields
    ensures var parse := Parse(Get(fields, "root"), join, read);
      var r1 := ResolveStep(Resolution(fields, [], None), "cert", parse);
      Resolve(fields, join, read) == if r1.error.Some? then r1 else ResolveStep(r1, "key", parse)
  {
    var keys := ["cert", "key"];
    var parse := Parse(Get(fields, "root"), join, read);
    var ks := CredentialKeys;
    assert ks[1..][1..][1..][1..][1..] == [];
    assert Present(fields, ks[1..][1..][1..][1..]) == [];
    assert Present(fields, ks[1..][1..][1..]) == [];
    assert Present(fields, ks[1..][1..]) == [];
    assert Present(fields, ks[1..]) == ["key"];
    assert Present(fields, ks) == keys;
    assert keys[..1] == ["cert"] && keys[..1][..0] == [] && keys[..2] == keys;
    assert ResolveKeys(fields, keys[..1][..0], parse) == Resolution(fields, [], None);
    assert ResolveKeys(fields, keys[..1], parse) == ResolveStep(Resolution(fields, [], None), "cert", parse);
  }

  /** A record whose `cert` and `key` each name one readable file, with no
      other credential field: `cert` is read and replaced first, then `key`,
      both relative to `root`. */
  lemma CertThenKeyResolved(fields: map<string, Value>,
                            join: (Value, Value) -> Option<string>, read: string -> Option<seq<byte>>,
                            certPath: string, keyPath: string, certBytes: seq<byte>, keyBytes: seq<byte>)
    requires "cert" in fields && "key" in fields
    requires "ca" !in fields && "pfx" !in fields && "crl" !in fields
    requires !fields["cert"].Arr? && !fields["key"].Arr?
    requires join(Get(fields, "root"), fields["cert"]) == Some(certPath) && read(certPath) == Some(certBytes)
    requires join(Get(fields, "root"), fields["key"]) == Some(keyPath) && read(keyPath) == Some(keyBytes)
    ensures Resolve(fields, join, read) ==
      Resolution(fields["cert" := Buf(certBytes)]["key" := Buf(keyBytes)], [certPath, keyPath], None)
  {
    var root := Get(fields, "root");
    CertThenKey(fields, join, read);
    var r0 := Resolution(fields, [], None);
    StepReads(r0, "cert", root, fields["cert"], certPath, certBytes, join, read);
    var r1 := Resolution(fields["cert" := Buf(certBytes)], [certPath], None);
    assert Get(r1.fields, "key") == fields["key"];
    StepReads(r1, "key", root, fields["key"], keyPath, keyBytes, join, read);
    assert [certPath] + [keyPath] == [certPath, keyPath];
  }

  /** One step over a field naming a single readable file replaces the field
      by the buffer read and appends the path. */
  lemma StepReads(r: Resolution, key: string, root: Value, file: Value, path: string, bytes: seq<byte>,
                  join: (Value, Value) -> Option<string>, read: string -> Option<seq<byte>>)
    requires Get(r.fields, key) == file && !file.Arr?
    requires join(root, file) == Some(path) && read(path) == Some(bytes)
    ensures ResolveStep(r, key, Parse(root, join, read)) ==
            Resolution(r.fields[key := Buf(bytes)], r.paths + [path], None)
  {
    assert Parse(root, join, read)(file) == Loaded(Ok(Buf(bytes)), [path]);
  }

  /** `create({ port: 443, key: 'k.pem', cert: 'c.pem', root: '/certs' }, {})`:
      the certificate is read before the key, both relative to the root, and
      the HTTPS constructor gets the record holding the two buffers. */
  lemma SecureServerReadsFromRoot(join: (Value, Value) -> Option<string>, read: string -> Option<seq<byte>>,
                                  certPath: string, keyPath: string, certBytes: seq<byte>, keyBytes: seq<byte>)
    requires join(Str("/certs"), Str("c.pem")) == Some(certPath) && read(certPath) == Some(certBytes)
    requires join(Str("/certs"), Str("k.pem")) == Some(keyPath) && read(keyPath) == Some(keyBytes)
    ensures var fields := map["port" := Num(443), "key" := Str("k.pem"), "cert" := Str("c.pem"), "root" := Str("/certs")];
      var resolved := fields["cert" := Buf(certBytes)]["key" := Buf(keyBytes)];
      CreateOutcome(fields, Obj(map[]), join, read) ==
        Outcome(Ok(Handle(Https, false)), resolved,
                [ReadFile(certPath), ReadFile(keyPath), Construct(Https, Some(resolved))])
  {
    var fields := map["port" := Num(443), "key" := Str("k.pem"), "cert" := Str("c.pem"), "root" := Str("/certs")];
    var resolved := fields["cert" := Buf(certBytes)]["key" := Buf(keyBytes)];
    NoCallbacks();
    assert EffectivePort(fields) == Num(443) && Certs(fields) && Secure(fields);
    assert CredentialCheck(fields) && SelectTier(fields) == Https;
    assert Truthy(Get(fields, "root"));
    CertThenKeyResolved(fields, join, read, certPath, keyPath, certBytes, keyBytes);
    assert ResolveIfSecure(fields, join, read) == Resolution(resolved, [certPath, keyPath], None);
    assert Get(fields, "listen") == Undefined;
    assert Wiring(Https, map[], Undefined, Num(443)) == [];
    assert ReadEffects([certPath, keyPath]) == [ReadFile(certPath), ReadFile(keyPath)];
    SuccessBranch(fields, Obj(map[]), join, read);
  }

  /** `create({ spdy: true }, {})` and even `create({ spdy: false }, {})`: the
      key `spdy` alone asks for the multiplexed tier, which without key and
      certificate throws before anything is read or built. */
  lemma SpdyWithoutCertsThrows(flag: bool, fn: Value, join: (Value, Value) -> Option<string>,
                               read: string -> Option<seq<byte>>)
    requires NormalizedCallbacks(fn).Ok?
    ensures SelectTier(map["spdy" := Bool(flag)]) == Spdy
    ensures CreateOutcome(map["spdy" := Bool(flag)], fn, join, read) ==
            Outcome(Err(MissingCredentials(MissingCredentialsMessage)), map["spdy" := Bool(flag)], [])
  {
  }

  /** `create(8443, { https })`: 8443 is not 443, so the tier is plain HTTP, the
      call succeeds, and the `https` announcement is never made. */
  lemma PortOtherThan443IsPlain(join: (Value, Value) -> Option<string>, read: string -> Option<seq<byte>>)
    ensures CreateOutcome(PortOptions(8443), Obj(map["https" := Func(7)]), join, read) ==
            Outcome(Ok(Handle(Http, false)), PortOptions(8443), [Construct(Http, None)])
  {
    var fn := Obj(map["https" := Func(7)]);
    CollectKeeps(fn, CallbackNames);
    assert NormalizedCallbacks(fn).value == map["https" := 7];
  }

  /** `create({ port: 8080 })` with no callbacks at all: `create.fns` reads
      `fn.close` of `undefined` and throws. */
  lemma MissingCallbacksThrow(fields: map<string, Value>, join: (Value, Value) -> Option<string>,
                              read: string -> Option<seq<byte>>)
    ensures CreateOutcome(fields, Undefined, join, read) == Outcome(Err(PropertyOfUndefined), fields, [])
  {
  }

  /** `create(8080)`, the declared bare-port form: with the fallback of
      `CallbacksArgument` it builds a plain server, attaches and announces
      nothing, and does not listen. */
  lemma BarePortWithoutCallbacksServes(join: (Value, Value) -> Option<string>,
                                       read: string -> Option<seq<byte>>)
    ensures CreateOutcome(PortOptions(8080), CallbacksArgument(Num(8080), Undefined), join, read) ==
      Outcome(Ok(Handle(Http, false)), PortOptions(8080), [Construct(Http, None)])
  {
    DeclaredFormsServe(map[], 8080, Undefined);
    assert CredentialCheck(PortOptions(8080));
  }

  /** `create({ port: 8080, listening })`, the declared options-and-events
      form: the options object supplies the `listening` callback, so the
      server listens on 8080. */
  lemma OptionsDoubleAsCallbacks(join: (Value, Value) -> Option<string>,
                                 read: string -> Option<seq<byte>>)
    ensures var fields := map["port" := Num(8080), "listening" := Func(3)];
      CreateOutcome(fields, CallbacksArgument(Obj(fields), Undefined), join, read) ==
        Outcome(Ok(Handle(Http, true)), fields, [Construct(Http, None), Listen(Num(8080), 3)])
  {
    var fields := map["port" := Num(8080), "listening" := Func(3)];
    var cbs: Callbacks := map["listening" := 3];
    DeclaredFormsServe(fields, 0, Undefined);
    var r := NormalizedCallbacks(CallbacksArgument(Obj(fields), Undefined));
    assert "listening" in r.value && r.value["listening"] == 3;
    assert forall name :: name in r.value ==> name == "listening";
    assert r.Ok? && r.value.Keys == cbs.Keys;
    assert r.value == cbs;
    assert r == Ok(cbs);
    assert EffectivePort(fields) == Num(8080) && !Certs(fields) && SelectTier(fields) == Http;
    assert Wiring(Http, cbs, Undefined, Num(8080)) == [Listen(Num(8080), 3)];
    SuccessBranch(fields, Obj(fields), join, read);
  }

  /** The record of the next scenario: `cert` resolves, then reading `key`
      throws, leaving `cert` rewritten and `key` as it was. */
  lemma KeyReadFails(join: (Value, Value) -> Option<string>, read: string -> Option<seq<byte>>,
                     certPath: string, keyPath: string, certBytes: seq<byte>)
    requires join(Str("/r"), Str("c")) == Some(certPath) && read(certPath) == Some(certBytes)
    requires join(Str("/r"), Str("k")) == Some(keyPath) && read(keyPath) == None
    ensures var fields := map["key" := Str("k"), "cert" := Str("c"), "root" := Str("/r")];
      Resolve(fields, join, read) ==
        Resolution(fields["cert" := Buf(certBytes)], [certPath, keyPath], Some(ReadFailed(keyPath)))
  {
    var fields := map["key" := Str("k"), "cert" := Str("c"), "root" := Str("/r")];
    var root := Str("/r");
    var parse := Parse(root, join, read);
    CertThenKey(fields, join, read);
    assert parse(Str("c")) == LoadOne(root, Str("c"), join, read) == Loaded(Ok(Buf(certBytes)), [certPath]);
    var r1 := ResolveStep(Resolution(fields, [], None), "cert", parse);
    assert r1 == Resolution(fields["cert" := Buf(certBytes)], [certPath], None);
    assert parse(Str("k")) == LoadOne(root, Str("k"), join, read) == Loaded(Err(ReadFailed(keyPath)), [keyPath]);
  }

  /** When the key file cannot be read, the exception leaves the caller's record
      half rewritten: `cert` (visited first) already holds its buffer, `key`
      still holds its path, and no server is built. */
  lemma ReadFailureLeavesCertRewritten(join: (Value, Value) -> Option<string>, read: string -> Option<seq<byte>>,
                                       certPath: string, keyPath: string, certBytes: seq<byte>)
    requires join(Str("/r"), Str("c")) == Some(certPath) && read(certPath) == Some(certBytes)
    requires join(Str("/r"), Str("k")) == Some(keyPath) && read(keyPath) == None
    ensures var fields := map["key" := Str("k"), "cert" := Str("c"), "root" := Str("/r")];
      CreateOutcome(fields, Obj(map[]), join, read) ==
        Outcome(Err(ReadFailed(keyPath)), fields["cert" := Buf(certBytes)],
                [ReadFile(certPath), ReadFile(keyPath)])
  {
    var fields := map["key" := Str("k"), "cert" := Str("c"), "root" := Str("/r")];
    NoCallbacks();
    assert EffectivePort(fields) == Num(443) && Certs(fields) && Secure(fields) && CredentialCheck(fields);
    assert Truthy(Get(fields, "root"));
    KeyReadFails(join, read, certPath, keyPath, certBytes);
    assert ReadEffects([certPath, keyPath]) == [ReadFile(certPath), ReadFile(keyPath)];
  }

  /** An array of certificate authorities is read element by element, in order. */
  lemma CaArrayReadInOrder(join: (Value, Value) -> Option<string>, read: string -> Option<seq<byte>>,
                           p1: string, p2: string, b1: seq<byte>, b2: seq<byte>)
    requires join(Str("/r"), Str("a.pem")) == Some(p1) && read(p1) == Some(b1)
    requires join(Str("/r"), Str("b.pem")) == Some(p2) && read(p2) == Some(b2)
    ensures var fields := map["ca" := Arr([Str("a.pem"), Str("b.pem")]), "root" := Str("/r")];
      Resolve(fields, join, read) ==
        Resolution(fields["ca" := Arr([Buf(b1), Buf(b2)])], [p1, p2], None)
  {
    var fields := map["ca" := Arr([Str("a.pem"), Str("b.pem")]), "root" := Str("/r")];
    var root := Str("/r");
    var files := [Str("a.pem"), Str("b.pem")];
    assert Present(fields, CredentialKeys) == ["ca"];
    assert ["ca"][..0] == [];
    var tail := [Str("b.pem")];
    assert files[1..] == tail && tail[1..] == [];
    assert LoadOne(root, tail[0], join, read) == Loaded(Ok(Buf(b2)), [p2]);
    assert LoadAll(root, tail[1..], join, read) == Loaded(Ok([]), []);
    var last := LoadAll(root, tail, join, read);
    assert last.result.value == [Buf(b2)] && last.paths == [p2];
    assert LoadOne(root, files[0], join, read) == Loaded(Ok(Buf(b1)), [p1]);
    var whole := LoadAll(root, files, join, read);
    assert whole.result == Ok([Buf(b1)] + last.result.value) && whole.paths == [p1] + last.paths;
    assert [Buf(b1)] + last.result.value == [Buf(b1), Buf(b2)];
    assert [p1] + last.paths == [p1, p2];
    assert whole == Loaded(Ok([Buf(b1), Buf(b2)]), [p1, p2]);
  }
}
