# create-server, modelled in Dafny

`create(server, fn)` (index.js) builds one HTTP, HTTPS or SPDY server from a
port number or an options object and returns it. The steps are:

- normalise the callbacks with `create.fns` (see "## Findings" for the two
  defects, index.js:26 and index.js:129, and how the model corrects them);
- read the port, defaulting to 443;
- pick the tier: the key `spdy`, then certificates or port 443, then plain HTTP;
- throw when an encrypted tier has no key and certificate;
- on a secure server (certificates given, or port 443) whose `options.root` is
  truthy, replace the credential fields in place by the files they name;
- construct the server and attach `request` (with `on`) and `close` (with `once`);
- call the tier's announcement callback;
- hand the server to `listen` when a `listening` callback exists and
  `options.listen` is not `false`.

The model is split into six modules:

- `Values` — JavaScript values: `undefined`, `null`, booleans, integers,
  strings, buffers, arrays, functions (by identity) and plain objects, with
  JavaScript truthiness and property access.
- `Config` — the options object as a class (the caller's own object is
  rewritten), the port default, the tier choice and the certificate check.
- `Credentials` — the credential rewrite of index.js:65-79. It is a pure fold,
  `ResolveKeys`, over the present keys of `cert`, `key`, `ca`, `pfx` and `crl`,
  with the loop method `ResolveInPlace` proved against it.
- `Callbacks` — `create.fns`: a pure filter, `Collect`/`NormalizedCallbacks`,
  and the loop method `Fns` proved equal to it.
- `Create` — the whole call. It is a pure outcome, `CreateOutcome`, made of
  the result (the server handle or the exception), the options record as the
  call leaves it, and the ordered trace of collaborator calls. The method
  `Create` works on the options object in place and is proved to produce that
  outcome.
- `Scenarios` — concrete calls worked out on the model.

Collaborators are parameters or trace entries, not code:

- `path.join` is the parameter `join: (Value, Value) -> Option<string>`, with
  `None` for a throw.
- `fs.readFileSync` is the parameter `read: string -> Option<seq<byte>>`, with
  `None` for a throw.
- The server constructors, `on`/`once`, the callbacks and `listen` of the
  `connected` package appear as `Effect` entries, in call order.

## Model

| member | source | states |
|---|---|---|
| Config.TierName | index.js:49-51 | the `type` string of each tier, which index.js:104 also uses as the name of the announcement callback `fn[type]`; always one of `http`, `https`, `spdy`; that only this callback is invoked is `WiringAttaches` |
| Config.PortOptions | index.js:35-36 | a bare number `n` becomes the record `{ port: n }` and nothing else |
| Config.EffectivePort | index.js:40 | `options.port || 443`; its properties are `PortDefaulting` and `BarePortDefaulting` |
| Config.Certs | index.js:41 | key and certificate are both truthy |
| Config.Secure | index.js:42 | certificates, or the effective port strictly equal to the number 443 |
| Config.CredentialCheck | index.js:56-58 | the configuration error is avoided; its properties are `CredentialCheckByTier` and `PastCheckSecureIsCerts` |
| Config.PortDefaulting | index.js:40 | an absent or falsy port becomes 443; a truthy port is kept as given; the effective port is always truthy |
| Config.BarePortDefaulting | index.js:35-40 | a bare number `n` gives port `n`, except that 0 gives 443 |
| Config.SelectTier | index.js:40-51 | the tier is `spdy` exactly when the key `spdy` is present, whatever its value; `https` exactly when it is absent and there are key and certificate or the port is the number 443; `http` otherwise |
| Config.CredentialCheckByTier | index.js:56-58 | the configuration error is avoided exactly when the tier is plain HTTP or key and certificate are both truthy |
| Config.PastCheckSecureIsCerts | index.js:42-58 | past the check, `secure` holds exactly when certificates are present, the tier is encrypted exactly then, and `spdy` never proceeds without certificates |
| Config.BarePortTier | index.js:35-58 | a bare port never selects `spdy`; it throws on 443 and 0 and selects plain HTTP on every other port |
| Credentials.Present | index.js:66-68 | the `filter` step: the credential names, in list order, that are keys of the options; its properties are `PresentKeeps` and `PresentOrdered` |
| Credentials.PresentKeeps | index.js:66-68 | the filter keeps exactly the credential names that are keys of the options, each once, in list order, and never grows the list |
| Credentials.PresentOrdered | index.js:66-68 | of two kept names, the one kept first comes first in the input list |
| Credentials.LoadOne | index.js:73-76 | one reference loads exactly when both `path.join` and the read succeed, and then yields the buffer read from the joined path; the path read is exactly the joined path, and nothing is read when `path.join` throws |
| Credentials.LoadAll | index.js:71-74 | `data.map(read)`; the first reference that throws aborts the map; its properties are `LoadAllElementwise` and `LoadAllPaths` |
| Credentials.LoadAllElementwise | index.js:71-74 | `data.map(read)` succeeds exactly when every element loads, and then has the same length and order, element i being the buffer read from `join(root, data[i])` |
| Credentials.LoadAllPaths | index.js:71-74 | a successful map reads one path per element, in array order, element i's path being `join(root, data[i])` |
| Credentials.ResolveValue | index.js:71-77 | the new value of one credential field, with the paths read; its properties are `ResolveValueShape` and `ResolveValuePaths` |
| Credentials.ResolveValueShape | index.js:71-77 | an array is read element by element; any other value is read once |
| Credentials.ResolveValuePaths | index.js:71-77 | a successful field resolution reads the joined path of each array element, in order, or the single joined path of any other value |
| Credentials.Parse | index.js:68-78 | the `parse` callback as a value: `ResolveValue` with `root` fixed to the record's `options.root` |
| Credentials.ResolveStep | index.js:69-77 | one `parse` iteration: on success the field is rewritten with the resolved value, on a throw it is left as it was and the exception is recorded; the paths read are appended; the loop body `ParseField` is proved equal to it and `ResolveKeysSnoc` makes it the fold's step |
| Credentials.ResolveKeysSnoc | index.js:68-78 | the fold over one more key is one more step on the fold so far, unless it already stopped |
| Credentials.ResolveKeys | index.js:68-78 | the `forEach` as a fold of one step per key, stopping at the first exception; its properties are the `ResolveKeys…` lemmas and `ErrorSticks` |
| Credentials.Resolve | index.js:65-79 | the rewrite of the whole record: the fold over the present credential names, relative to `options.root`; its properties are `ResolveChangesOnlyCredentials`, `ResolveKeepsField` and `ResolvePaths` |
| Credentials.ResolveKeysFrame | index.js:68-78 | the `forEach` adds or removes no key and changes no field outside the visited keys |
| Credentials.ResolveKeysSuccess | index.js:68-78 | without an exception, every visited key resolved and holds its resolved value |
| Credentials.ResolveKeysStopped | index.js:68-78 | with an exception, there is a key j that threw it; the keys before j are already rewritten, and j and the later keys keep their old values |
| Credentials.ResolveKeysPaths | index.js:68-78 | without an exception, the paths read are, in key order, the concatenation of the paths each visited field's own resolution reads |
| Credentials.ErrorSticks | index.js:68-78 | once a step has thrown, the later keys are never visited |
| Credentials.ResolveChangesOnlyCredentials | index.js:65-79 | resolution changes only `cert`, `key`, `ca`, `pfx` and `crl` and keeps the key set; on success each present credential field holds its resolved value |
| Credentials.ResolveKeepsField | index.js:65-79 | a non-credential field, such as `listen`, reads the same after resolution |
| Credentials.ResolvePaths | index.js:65-79 | a successful resolution has read, in the order `cert`, `key`, `ca`, `pfx`, `crl`, the paths of the present credential fields, each as `ResolveValuePaths` describes |
| Credentials.ParseField | index.js:68-78 | the `parse` callback leaves the options object as one fold step specifies, reads the paths it names, reports the exception it raises, and changes no other field |
| Credentials.ResolveInPlace | index.js:65-79 | the in-place loop leaves the options object, the paths read and the exception exactly as the fold specifies, including the partially rewritten record after a failed read |
| Callbacks.Collect | index.js:125-132 | the `forEach` over the six known names, keeping those under which `fn` holds a function; its property is `CollectKeeps` |
| Callbacks.CollectKeeps | index.js:125-132 | a name is kept exactly when it is one of the six known names and `fn` holds a function under it, and it is kept with that function |
| Callbacks.NormalizedCallbacks | index.js:117-135 | what `create.fns(fn)` returns, or the TypeError it raises; its property is `NormalizedCallbacksFilter` |
| Callbacks.NormalizedCallbacksFilter | index.js:117-135 | a bare function becomes `{ listening: fn }`; only `undefined`/`null` throws; otherwise the result holds exactly the known names bound to functions, so `upgrade` and `error` are never kept |
| Callbacks.Fns | index.js:117-135 | the loop over the six names returns the same callbacks, or the same TypeError, as the filter |
| Create.ListenRequested | index.js:106 | `options.listen` is not `false` and a `listening` callback exists, the negation of the early-return test; that `listen` is called exactly then, and last, is `ListenDecision` and `WiringOrder` |
| Create.Wiring | index.js:98-107 | the collaborator calls after construction: `on('request')`, `once('close')`, the tier's callback, then `listen`; its properties are `WiringAttaches` and `WiringOrder` |
| Create.WiringAttaches | index.js:98-104 | `request` is attached with `on` and `close` with `once`, each exactly when given, and nothing else is attached; only the tier's own callback is invoked, exactly when given |
| Create.WiringOrder | index.js:98-107 | the announcement happens at most once and before `listen`; `listen` is the last call, made once, exactly when requested, with the port and the `listening` callback |
| Create.ResolveIfSecure | index.js:65 | resolution runs only on a secure server with a truthy `root`; otherwise the record is kept and nothing is read (`ReadsOnlyWithSecureRoot`) |
| Create.CreateOutcome | index.js:25-108 | the whole call from line 26 on, with `create.fns` as the normaliser: the result, the record as left and the ordered collaborator calls; its properties are the `Create` lemmas below |
| Create.SuccessBranch | index.js:81-107 | a successful call reads the files, constructs the server and then wires it, reading `options.listen` from the record as given |
| Create.FailsFastWithoutCerts | index.js:56-58 | an encrypted tier without key and certificate throws the configuration error with its exact message; nothing is read, built or called, and the options are untouched |
| Create.ConstructsExactlyOnce | index.js:81-93 | every success constructs exactly one server, of the selected tier, after all file reads and before all wiring; `http` gets no options and the encrypted tiers get the resolved record |
| Create.FailureOnlyReads | index.js:56-79 | a failed call constructs and wires nothing: it leaves only the file reads made before the exception |
| Create.ReadsOnlyWithSecureRoot | index.js:65 | no file is read and the options are returned unchanged unless the server is secure and `root` is truthy |
| Create.OptionsFrame | index.js:30-79 | whatever happens, the options keep their key set and every non-credential field |
| Create.EncryptedIffCerts | index.js:40-93 | a built server is encrypted exactly when key and certificate were given, so there is no silent downgrade to plain HTTP |
| Create.ListenDecision | index.js:106-107 | `listen` is called, as the last effect and with the effective port and `listening`, exactly when `options.listen` is not `false` and a `listening` callback exists |
| Create.AnnouncedBeforeListen | index.js:104-107 | the tier's announcement, when made, comes before the `listen` call |
| Create.NoOptionsOutcome | index.js:30-40 | a first argument that is neither a number nor an object leaves `options` undefined, and reading `options.port` throws before anything is built |
| Create.CallbacksArgument | index.js:26 | the value whose callbacks are normalised: `fn`, or the first argument when `fn` is `undefined` (the corrected form of the second finding) |
| Create.DeclaredFormsServe | index.d.ts:5-9 | with that fallback the declared one-argument forms normalise without an exception: a bare port gets no callbacks, an options object exactly its known names bound to functions, and an explicit `fn` is used unchanged |
| Create.Create | index.js:25-108 | the in-place call produces the outcome `CreateOutcome` specifies from the options as they were given, normalising `fn` or, when it is omitted, the first argument; the caller's object is left holding the outcome's record |
| Create.CreateAsWritten | index.js:26 | the call as written: `create.fn` is not defined, so it throws a TypeError before anything else |
| Create.AsWrittenNeverServes | index.js:26 | as written, every call throws before doing anything, including `create(8080, fn)`, which the corrected call serves over HTTP and listens on |
| Scenarios.PlainServerListens | index.js:25-108 | `create({ port: 8080 }, { listening })` builds a plain server without options and listens on 8080 |
| Scenarios.CertThenKeyResolved | index.js:65-79 | a record whose `cert` and `key` each name one readable file resolves `cert` first, then `key`, reading the two joined paths in that order |
| Scenarios.SecureServerReadsFromRoot | index.js:25-108 | `create({ port: 443, key, cert, root }, {})` reads the certificate, then the key, and hands the record with both buffers to the HTTPS constructor |
| Scenarios.SpdyWithoutCertsThrows | index.js:43-58 | `{ spdy: true }`, and even `{ spdy: false }`, selects `spdy` and throws the configuration error before anything else |
| Scenarios.PortOtherThan443IsPlain | index.js:40-51 | `create(8443, { https })` is plain HTTP, succeeds and never calls `https` |
| Scenarios.MissingCallbacksThrow | index.js:117-129 | a call without callbacks throws the TypeError of reading `fn.close` |
| Scenarios.BarePortWithoutCallbacksServes | index.d.ts:8 | with the fallback, `create(8080)` builds a plain server, attaches and announces nothing and does not listen |
| Scenarios.OptionsDoubleAsCallbacks | index.d.ts:6 | with the fallback, `create({ port: 8080, listening })` takes `listening` from the options and listens on 8080 |
| Scenarios.KeyReadFails | index.js:65-79 | when the key file cannot be read, resolution stops with `cert` rewritten and `key` as it was |
| Scenarios.ReadFailureLeavesCertRewritten | index.js:65-93 | the exception leaves the caller's record half rewritten and builds no server |
| Scenarios.CaArrayReadInOrder | index.js:71-74 | an array of authorities is read element by element, in order |

## Left out

- The `is` helper (index.js:14-16) is not modelled. Its three outcomes are the `Input` shapes: a number, a plain object, and anything else.
- Numbers are integers (`-0` is 0). `NaN` and fractions are not modelled; the port compares strictly with the integer 443.
- The server implementations (`http`, `https`, `spdy` modules) are recorded only as a `Construct` entry with the options passed to them.
- Event dispatch through `on`/`once` is not modelled. Attachment is recorded; when `close` fires, and how often, is not.
- The `connected` package's `listen` is recorded as a `Listen` entry. Its asynchronous bind, bind errors, and the value it returns instead of the server are not modelled; `Handle.listenCalled` marks that the call was made.
- `path.join` and `fs.readFileSync` are the parameters `join` and `read`. Their file-system behaviour and error kinds are not modelled; a throw is `None`.
- `options.root` is read again for each file in the source. The model reads it once per resolution in `Resolve` and once per field in `ParseField`; the value is the same because `root` is not a credential field.
- The type declarations (index.d.ts: `url`, `redirect`, and the `upgrade` and `error` callbacks) describe options the code never reads. They are not modelled, beyond proving that `upgrade` and `error` are dropped.
- CreateOutcome: the server constructors (index.js:83-91), `on`/`once` (index.js:98-99), the tier's callback (index.js:104) and `listen` (index.js:107) are assumed to return normally. An exception thrown by any of them is not modelled, so a successful outcome always lists every wiring call.

## Behaviours of the code worth knowing

- The certificate check runs before resolution, on the raw references, so `root` with file names in `key` and `cert` passes it.
- A failed read leaves the earlier credential fields already rewritten in the caller's object.
- The plain HTTP constructor receives no options.
- `create(8443, { https })` selects plain HTTP, succeeds and never calls `https`.
- The certificate is read before the key.
- The one-argument forms `create(options)` and `create(port)` throw in `create.fns`, even after the first finding is corrected (second finding).

## Findings

| source | as written | input that shows it | evidently intended | confidence | as-written member | corrected member |
|---|---|---|---|---|---|---|
| index.js:26 | `fn = create.fn(fn)` calls `create.fn`, which is never defined (only `create.fns` is, at index.js:117), so every call throws a TypeError | `create(8080, someFunction)` | `fn = create.fns(fn)`, normalising the callbacks | high (not executed) | Create.CreateAsWritten, Create.AsWrittenNeverServes | Create.CreateOutcome, Create.Create |
| index.js:129 | `create.fns(undefined)` reads `fn.close` of `undefined` and throws, so the one-argument forms that index.d.ts:6 and :8 declare, `create(options & events)` and `create(port, events?)`, can never succeed | `create(8080)`, or `create({ port: 8080, listening })` | when `fn` is omitted, take the callbacks from the first argument: the options object doubles as the events, and a bare port has none | medium (not executed) | Scenarios.MissingCallbacksThrow | Create.CallbacksArgument, Create.DeclaredFormsServe, Create.Create, Scenarios.BarePortWithoutCallbacksServes, Scenarios.OptionsDoubleAsCallbacks |
