/** `create` (index.js:25-108): normalise the options, pick the tier, check the
    certificates, resolve them in place, construct exactly one server, wire
    the callbacks, announce the tier and decide whether to listen.

    The collaborators are not run: the server constructors, `on`/`once`, the
    callbacks themselves and `listen` are recorded as effects, in order, and
    `path.join` and `fs.readFileSync` are the parameters `join` and `read`. */
module Create {
  import opened Values
  import opened Config
  import opened Credentials
  import opened Callbacks

  const MissingCredentialsMessage: string := "Missing the SSL key or certificate files in the options."

  /** A call into a collaborator, as `create` makes it. */
  datatype Effect =
    | ReadFile(path: string)                                     // fs.readFileSync(path)
    | Construct(tier: Tier, config: Option<map<string, Value>>)  // require(tier).createServer(config?)
    | AttachOn(event: string, handler: nat)                      // server.on(event, handler)
    | AttachOnce(event: string, handler: nat)                    // server.once(event, handler)
    | Invoke(handler: nat)                                       // handler()
    | Listen(port: Value, handler: nat)                          // listen(server, port, handler)

  /** The server `create` hands back: its tier and whether `listen` was called on it. */
  datatype Handle = Handle(tier: Tier, listenCalled: bool)

  /** What a call to `create` amounts to: the handle or the exception, the
      options record as the call leaves it, and the collaborator calls made. */
  datatype Outcome = Outcome(result: Result<Handle>, options: map<string, Value>, effects: seq<Effect>)

  function ReadEffects(paths: seq<string>): (es: seq<Effect>)
    ensures |es| == |paths|
    ensures forall i :: 0 <= i < |paths| ==> es[i] == ReadFile(paths[i])
  {
    seq(|paths|, i requires 0 <= i < |paths| => ReadFile(paths[i]))
  }

  /** `!(options.listen === false || !fn.listening)`. */
  predicate ListenRequested(cbs: Callbacks, listenFlag: Value)
  {
    listenFlag != Bool(false) && "listening" in cbs
  }

  /** The wiring after construction (index.js:98-107). */
  function Wiring(tier: Tier, cbs: Callbacks, listenFlag: Value, port: Value): (effects: seq<Effect>)
  {
    var onRequest := if "request" in cbs then [AttachOn("request", cbs["request"])] else [];
    var onClose := if "close" in cbs then [AttachOnce("close", cbs["close"])] else [];
    var announce := if TierName(tier) in cbs then [Invoke(cbs[TierName(tier)])] else [];
    var listen := if ListenRequested(cbs, listenFlag) then [Listen(port, cbs["listening"])] else [];
    onRequest + onClose + announce + listen
  }

  /** `request` is attached with `on` and `close` with `once`, each exactly
      when given, and nothing else is attached; the only callback invoked is
      the one named after the tier, exactly when given; nothing is read or
      constructed. */
  lemma WiringAttaches(tier: Tier, cbs: Callbacks, listenFlag: Value, port: Value)
    ensures var w := Wiring(tier, cbs, listenFlag, port);
      (forall e :: e in w && e.AttachOn? ==> "request" in cbs && e == AttachOn("request", cbs["request"])) &&
      (forall e :: e in w && e.AttachOnce? ==> "close" in cbs && e == AttachOnce("close", cbs["close"])) &&
      ("request" in cbs ==> AttachOn("request", cbs["request"]) in w) &&
      ("close" in cbs ==> AttachOnce("close", cbs["close"]) in w) &&
      (forall e :: e in w && e.Invoke? ==> TierName(tier) in cbs && e == Invoke(cbs[TierName(tier)])) &&
      (TierName(tier) in cbs ==> Invoke(cbs[TierName(tier)]) in w) &&
      (forall e :: e in w ==> !e.ReadFile? && !e.Construct?)
  {
  }

  /** The announcement is made at most once and before `listen`; `listen` is
      called last, once, exactly when requested, with the port and the
      `listening` callback. */
  lemma WiringOrder(tier: Tier, cbs: Callbacks, listenFlag: Value, port: Value)
    ensures var w := Wiring(tier, cbs, listenFlag, port);
      (forall i, j :: 0 <= i < j < |w| ==> !(w[i].Invoke? && w[j].Invoke?)) &&
      (forall i, j :: 0 <= i < |w| && 0 <= j < |w| && w[i].Invoke? && w[j].Listen? ==> i < j) &&
      (ListenRequested(cbs, listenFlag) ==> |w| > 0 && w[|w| - 1] == Listen(port, cbs["listening"])) &&
      (forall i :: 0 <= i < |w| && w[i].Listen? ==> ListenRequested(cbs, listenFlag) && i == |w| - 1)
  {
  }

  /** Resolution happens only on a secure server with a truthy `root`. */
  function ResolveIfSecure(fields: map<string, Value>,
                           join: (Value, Value) -> Option<string>,
                       read: string -> Option<seq<byte>>): (res: Resolution)
  {
    if Secure(fields) && Truthy(Get(fields, "root")) then Resolve(fields, join, read)
    else Resolution(fields, [], None)
  }

  /** `create(options, fn)` with `create.fns` as the callback normaliser. */
  function CreateOutcome(fields: map<string, Value>, fn: Value,
                         join: (Value, Value) -> Option<string>,
                         read: string -> Option<seq<byte>>): (o: Outcome)
  {
    match NormalizedCallbacks(fn)
    case Err(e) => Outcome(Err(e), fields, [])
    case Ok(cbs) =>
      if !CredentialCheck(fields) then
        Outcome(Err(MissingCredentials(MissingCredentialsMessage)), fields, [])
      else
        var res := ResolveIfSecure(fields, join, read);
        if res.error.Some? then Outcome(Err(res.error.value), res.fields, ReadEffects(res.paths))
        else
          var tier := SelectTier(fields);
          var built := Construct(tier, if tier == Http then None else Some(res.fields));
          var listenFlag := Get(res.fields, "listen");
          Outcome(Ok(Handle(tier, ListenRequested(cbs, listenFlag))), res.fields,
                  ReadEffects(res.paths) + [built] + Wiring(tier, cbs, listenFlag, EffectivePort(fields)))
  }

  /** The successful branch of `CreateOutcome`, with `options.listen` read from
      the record as given (resolution never changes it). */
  lemma SuccessBranch(fields: map<string, Value>, fn: Value,
                      join: (Value, Value) -> Option<string>,
                      read: string -> Option<seq<byte>>)
    requires NormalizedCallbacks(fn).Ok? && CredentialCheck(fields)
    requires ResolveIfSecure(fields, join, read).error.None?
    ensures var cbs := NormalizedCallbacks(fn).value;
      var res := ResolveIfSecure(fields, join, read);
      var tier := SelectTier(fields);
      var flag := Get(fields, "listen");
      CreateOutcome(fields, fn, join, read) ==
        Outcome(Ok(Handle(tier, ListenRequested(cbs, flag))), res.fields,
                ReadEffects(res.paths) +
                [Construct(tier, if tier == Http then None else Some(res.fields))] +
                Wiring(tier, cbs, flag, EffectivePort(fields)))
  {
    if Secure(fields) && Truthy(Get(fields, "root")) {
      ResolveKeepsField(fields, "listen", join, read);
    }
  }

  /** Only the successful branch succeeds. */
  lemma OkIsSuccessBranch(fields: map<string, Value>, fn: Value,
                          join: (Value, Value) -> Option<string>,
                          read: string -> Option<seq<byte>>)
    requires CreateOutcome(fields, fn, join, read).result.Ok?
    ensures NormalizedCallbacks(fn).Ok? && CredentialCheck(fields)
    ensures ResolveIfSecure(fields, join, read).error.None?
  {
  }

  /** An encrypted tier without key and certificate throws the configuration
      error before any file is read, any server is built or any callback runs,
      and leaves the options untouched. */
  lemma FailsFastWithoutCerts(fields: map<string, Value>, fn: Value,
                              join: (Value, Value) -> Option<string>,
                              read: string -> Option<seq<byte>>)
    requires NormalizedCallbacks(fn).Ok?
    requires SelectTier(fields) != Http && !Certs(fields)
    ensures CreateOutcome(fields, fn, join, read) ==
            Outcome(Err(MissingCredentials(MissingCredentialsMessage)), fields, [])
  {
  }

  /** Every successful call builds exactly one server, of the selected tier,
      after all the file reads and before all the wiring; the plain tier gets
      no options, the encrypted tiers the resolved record. */
  lemma ConstructsExactlyOnce(fields: map<string, Value>, fn: Value,
                              join: (Value, Value) -> Option<string>,
                              read: string -> Option<seq<byte>>)
    requires CreateOutcome(fields, fn, join, read).result.Ok?
    ensures var o := CreateOutcome(fields, fn, join, read);
      o.result.value.tier == SelectTier(fields) &&
      exists k :: 0 <= k < |o.effects| &&
        o.effects[k] == Construct(SelectTier(fields), if SelectTier(fields) == Http then None else Some(o.options)) &&
        (forall i :: 0 <= i < |o.effects| && o.effects[i].Construct? ==> i == k) &&
        (forall i :: 0 <= i < k ==> o.effects[i].ReadFile?) &&
        (forall i :: k < i < |o.effects| ==> !o.effects[i].ReadFile?)
  {
    OkIsSuccessBranch(fields, fn, join, read);
    SuccessBranch(fields, fn, join, read);
    var o := CreateOutcome(fields, fn, join, read);
    var res := ResolveIfSecure(fields, join, read);
    var tier := SelectTier(fields);
    var rs := ReadEffects(res.paths);
    var built := Construct(tier, if tier == Http then None else Some(res.fields));
    var w := Wiring(tier, NormalizedCallbacks(fn).value, Get(fields, "listen"), EffectivePort(fields));
    WiringAttaches(tier, NormalizedCallbacks(fn).value, Get(fields, "listen"), EffectivePort(fields));
    var k := |rs|;
    var pre := rs + [built];
    assert o.effects == pre + w;
    assert o.effects[k] == pre[k] == built && o.options == res.fields;
    forall i | 0 <= i < |o.effects|
      ensures i < k ==> o.effects[i].ReadFile?
      ensures i > k ==> !o.effects[i].ReadFile? && !o.effects[i].Construct?
    {
      if i < k {
        assert o.effects[i] == pre[i] == rs[i];
      } else if i > k {
        assert o.effects[i] == w[i - k - 1];
        assert w[i - k - 1] in w;
      }
    }
  }

  /** A failed call constructs nothing and wires nothing: the only effects it
      leaves are the file reads made before the exception. */
  lemma FailureOnlyReads(fields: map<string, Value>, fn: Value,
                         join: (Value, Value) -> Option<string>,
                         read: string -> Option<seq<byte>>)
    requires CreateOutcome(fields, fn, join, read).result.Err?
    ensures var o := CreateOutcome(fields, fn, join, read);
      forall i :: 0 <= i < |o.effects| ==> o.effects[i].ReadFile?
  {
  }

  /** No file is read unless the server is secure and `root` is truthy; then
      the options record is returned as it was given. */
  lemma ReadsOnlyWithSecureRoot(fields: map<string, Value>, fn: Value,
                                join: (Value, Value) -> Option<string>,
                                read: string -> Option<seq<byte>>)
    requires !(Secure(fields) && Truthy(Get(fields, "root")))
    ensures var o := CreateOutcome(fields, fn, join, read);
      o.options == fields && forall i :: 0 <= i < |o.effects| ==> !o.effects[i].ReadFile?
  {
    var o := CreateOutcome(fields, fn, join, read);
    if o.result.Ok? {
      OkIsSuccessBranch(fields, fn, join, read);
      SuccessBranch(fields, fn, join, read);
      var tier := SelectTier(fields);
      var w := Wiring(tier, NormalizedCallbacks(fn).value, Get(fields, "listen"), EffectivePort(fields));
      WiringAttaches(tier, NormalizedCallbacks(fn).value, Get(fields, "listen"), EffectivePort(fields));
      var built := Construct(tier, if tier == Http then None else Some(fields));
      assert ReadEffects([]) == [];
      assert o.effects == [] + [built] + w == [built] + w;
      forall i | 0 <= i < |o.effects| ensures !o.effects[i].ReadFile? {
        if i > 0 {
          assert o.effects[i] == w[i - 1];
          assert w[i - 1] in w;
        }
      }
    }
  }

  /** Whatever happens, the options record keeps its keys and every field
      other than `cert`, `key`, `ca`, `pfx` and `crl`. */
  lemma OptionsFrame(fields: map<string, Value>, fn: Value,
                     join: (Value, Value) -> Option<string>,
                     read: string -> Option<seq<byte>>)
    ensures var o := CreateOutcome(fields, fn, join, read);
      o.options.Keys == fields.Keys &&
      forall k :: k in fields && k !in CredentialKeys ==> o.options[k] == fields[k]
  {
    ResolveChangesOnlyCredentials(fields, join, read);
  }

  /** A server that is built on an encrypted tier was given key and
      certificate, and key and certificate always mean an encrypted tier:
      there is no silent downgrade to plain HTTP. */
  lemma EncryptedIffCerts(fields: map<string, Value>, fn: Value,
                          join: (Value, Value) -> Option<string>,
                          read: string -> Option<seq<byte>>)
    requires CreateOutcome(fields, fn, join, read).result.Ok?
    ensures var t := CreateOutcome(fields, fn, join, read).result.value.tier;
      t != Http <==> Certs(fields)
  {
    PastCheckSecureIsCerts(fields);
  }

  /** `listen` is called, as the last effect and with the effective port and
      the `listening` callback, exactly when `options.listen` is not `false`
      and a `listening` callback was given. */
  lemma ListenDecision(fields: map<string, Value>, fn: Value,
                           join: (Value, Value) -> Option<string>,
                       read: string -> Option<seq<byte>>)
    requires CreateOutcome(fields, fn, join, read).result.Ok?
    ensures var o := CreateOutcome(fields, fn, join, read);
      var cbs := NormalizedCallbacks(fn).value;
      var wanted := Get(fields, "listen") != Bool(false) && "listening" in cbs;
      o.result.value.listenCalled == wanted &&
      (wanted ==> o.effects[|o.effects| - 1] == Listen(EffectivePort(fields), cbs["listening"])) &&
      (forall i :: 0 <= i < |o.effects| && o.effects[i].Listen? ==> wanted && i == |o.effects| - 1)
  {
    OkIsSuccessBranch(fields, fn, join, read);
    SuccessBranch(fields, fn, join, read);
    var o := CreateOutcome(fields, fn, join, read);
    var cbs := NormalizedCallbacks(fn).value;
    var res := ResolveIfSecure(fields, join, read);
    var tier := SelectTier(fields);
    var flag := Get(fields, "listen");
    var w := Wiring(tier, cbs, flag, EffectivePort(fields));
    var pre := ReadEffects(res.paths) + [Construct(tier, if tier == Http then None else Some(res.fields))];
    assert o.effects == pre + w;
    WiringOrder(tier, cbs, flag, EffectivePort(fields));
    forall i | 0 <= i < |o.effects|
      ensures i < |pre| ==> !o.effects[i].Listen?
      ensures |pre| <= i ==> o.effects[i] == w[i - |pre|]
    {
      if i < |pre| {
        assert o.effects[i] == pre[i];
      }
    }
  }

  /** The tier's announcement, when made, comes before the `listen` call. */
  lemma AnnouncedBeforeListen(fields: map<string, Value>, fn: Value,
                              join: (Value, Value) -> Option<string>,
                              read: string -> Option<seq<byte>>)
    requires CreateOutcome(fields, fn, join, read).result.Ok?
    ensures var o := CreateOutcome(fields, fn, join, read);
      forall i, j :: 0 <= i < |o.effects| && 0 <= j < |o.effects| && o.effects[i].Invoke? && o.effects[j].Listen? ==> i < j
  {
    OkIsSuccessBranch(fields, fn, join, read);
    SuccessBranch(fields, fn, join, read);
    var o := CreateOutcome(fields, fn, join, read);
    var cbs := NormalizedCallbacks(fn).value;
    var res := ResolveIfSecure(fields, join, read);
    var tier := SelectTier(fields);
    var flag := Get(fields, "listen");
    var w := Wiring(tier, cbs, flag, EffectivePort(fields));
    var pre := ReadEffects(res.paths) + [Construct(tier, if tier == Http then None else Some(res.fields))];
    assert o.effects == pre + w;
    WiringOrder(tier, cbs, flag, EffectivePort(fields));
    forall i | 0 <= i < |o.effects|
      ensures i < |pre| ==> !o.effects[i].Invoke? && !o.effects[i].Listen?
      ensures |pre| <= i ==> o.effects[i] == w[i - |pre|]
    {
      if i < |pre| {
        assert o.effects[i] == pre[i];
      }
    }
  }

  /** The value whose callbacks `create` normalises. index.js:26 passes `fn`
      itself, so the one-argument forms that index.d.ts:6 and :8 declare,
      `create(options & events)` and `create(port)`, reach `create.fns` with
      `undefined` and throw. When `fn` is omitted the first argument stands in:
      the options object doubles as the callbacks, and a bare port has none. */
  function CallbacksArgument(server: Value, fn: Value): (arg: Value)
  {
    if fn.Undefined? then server else fn
  }

  /** With the fallback, both declared one-argument forms normalise without
      an exception: a bare port gets no callbacks, an options object gives
      exactly its known names bound to functions; an explicit `fn` is used as
      before. */
  lemma DeclaredFormsServe(fields: map<string, Value>, n: int, fn: Value)
    ensures !fn.Undefined? ==> CallbacksArgument(Obj(fields), fn) == fn && CallbacksArgument(Num(n), fn) == fn
    ensures NormalizedCallbacks(CallbacksArgument(Num(n), Undefined)) == Ok(map[])
    ensures var r := NormalizedCallbacks(CallbacksArgument(Obj(fields), Undefined));
      r.Ok? &&
      (forall name :: name in r.value <==> name in CallbackNames && Get(fields, name).Func?) &&
      (forall name :: name in r.value ==> r.value[name] == Get(fields, name).id)
  {
    NormalizedCallbacksFilter(Num(n));
    NormalizedCallbacksFilter(Obj(fields));
    assert Member(Obj(fields), "listening") == Get(fields, "listening");
  }

  /** `create(x, fn)` when `x` is neither a number nor a plain object: the
      callbacks are normalised, then reading `options.port` of `undefined`
      throws. Nothing is built and no file is read. */
  function NoOptionsOutcome(fn: Value): (o: Outcome)
    ensures o.result.Err? && o.effects == [] && o.options == map[]
    ensures NormalizedCallbacks(fn).Ok? ==> o.result == Err(PropertyOfUndefined)
  {
    match NormalizedCallbacks(fn)
    case Err(e) => Outcome(Err(e), map[], [])
    case Ok(_) => Outcome(Err(PropertyOfUndefined), map[], [])
  }

  /** The in-place `create`: the caller's options object is the one rewritten;
      a bare port gets a fresh `{ port: n }`. The callbacks are normalised from
      `CallbacksArgument`, so an omitted `fn` falls back to the first argument. */
  method Create(input: Input, fn: Value,
                join: (Value, Value) -> Option<string>,
                read: string -> Option<seq<byte>>)
    returns (o: Outcome)
    modifies if input.Given? then {input.obj} else {}
    ensures input.Unsupported? ==> o == NoOptionsOutcome(fn)
    ensures !input.Unsupported? ==>
      o == CreateOutcome(old(if input.Given? then input.obj.fields else PortOptions(input.n)),
                         CallbacksArgument(old(if input.Given? then Obj(input.obj.fields) else Num(input.n)), fn),
                         join, read)
    ensures input.Given? ==> input.obj.fields == o.options
  {
    ghost var fields0 := if input.Given? then input.obj.fields
                         else if input.Port? then PortOptions(input.n) else map[];
    var server := match input
      case Given(obj) => Obj(obj.fields)
      case Port(n) => Num(n)
      case Unsupported => Undefined;
    var cbs := Fns(CallbacksArgument(server, fn));
    if cbs.Err? {
      return Outcome(Err(cbs.error), if input.Given? then input.obj.fields
                                     else if input.Port? then PortOptions(input.n) else map[], []);
    }
    var callbacks := cbs.value;

    var options: Options;
    match input {
      case Given(obj) => options := obj;
      case Port(n) => options := new Options(PortOptions(n));
      case Unsupported => return Outcome(Err(PropertyOfUndefined), map[], []);
    }
    assert options.fields == fields0;

    var port := EffectivePort(options.fields);
    var certs := Certs(options.fields);
    var secure := certs || port == Num(DefaultPort);
    var spdy := "spdy" in options.fields;
    var tier := if spdy then Spdy else if secure then Https else Http;
    assert secure == Secure(fields0) && tier == SelectTier(fields0);

    if (secure || spdy) && !certs {
      return Outcome(Err(MissingCredentials(MissingCredentialsMessage)), options.fields, []);
    }
    assert CredentialCheck(fields0);

    ghost var res := ResolveIfSecure(fields0, join, read);
    var paths: seq<string> := [];
    if secure && Truthy(Get(options.fields, "root")) {
      var error;
      paths, error := ResolveInPlace(options, join, read);
      assert Resolution(options.fields, paths, error) == res;
      if error.Some? {
        return Outcome(Err(error.value), options.fields, ReadEffects(paths));
      }
    }
    assert res == Resolution(options.fields, paths, None);

    // Construction dispatch (index.js:81-93), then the wiring (index.js:98-107).
    var built := if tier == Http then Construct(Http, None) else Construct(tier, Some(options.fields));
    var listenFlag := Get(options.fields, "listen");
    var listened := ListenRequested(callbacks, listenFlag);
    o := Outcome(Ok(Handle(tier, listened)), options.fields,
                 ReadEffects(paths) + [built] + Wiring(tier, callbacks, listenFlag, port));
    if secure && Truthy(Get(fields0, "root")) {
      ResolveKeepsField(fields0, "listen", join, read);
    }
    SuccessBranch(fields0, CallbacksArgument(server, fn), join, read);
  }

  /** `create` as index.js:26 writes it: it calls `create.fn`, which is never
      defined (only `create.fns` is), so every call throws a TypeError before
      the options are even looked at. */
  function CreateAsWritten(fields: map<string, Value>, fn: Value,
                           join: (Value, Value) -> Option<string>,
                           read: string -> Option<seq<byte>>): (o: Outcome)
  {
    Outcome(Err(NotAFunction), fields, [])
  }

  /** As written, `create` never builds a server, even for `create(8080, fn)`,
      which the corrected `create` serves over plain HTTP and listens on. */
  lemma AsWrittenNeverServes(fields: map<string, Value>, fn: Value,
                             join: (Value, Value) -> Option<string>,
                             read: string -> Option<seq<byte>>)
    ensures CreateAsWritten(fields, fn, join, read).result == Err(NotAFunction)
    ensures CreateAsWritten(fields, fn, join, read).effects == []
    ensures CreateOutcome(PortOptions(8080), Func(0), join, read).result == Ok(Handle(Http, true))
    ensures CreateAsWritten(PortOptions(8080), Func(0), join, read).result.Err?
  {
    assert NormalizedCallbacks(Func(0)) == Ok(map["listening" := 0]);
    assert CredentialCheck(PortOptions(8080));
  }
}
