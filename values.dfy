/** JavaScript values as the server factory sees them: the option record's
    fields, the callback argument and the loaded credential buffers. Only the
    distinctions the factory's logic looks at are kept: presence of a key,
    truthiness, `typeof … === 'function'`, `Array.isArray` and strict equality. */
module Values {

  newtype byte = x: int | 0 <= x < 256

  /** A JavaScript value. Numbers are modelled as integers; `Func` stands for a
      function object, identified by `id`; `Buf` is a `Buffer` returned by the
      filesystem; `Obj` is a plain object with its own enumerable fields. */
  datatype Value =
    | Undefined
    | Null
    | Bool(b: bool)
    | Num(n: int)
    | Str(s: string)
    | Buf(bytes: seq<byte>)
    | Arr(elems: seq<Value>)
    | Func(id: nat)
    | Obj(fields: map<string, Value>)

  datatype Option<+T> = None | Some(value: T)

  /** The exceptions the factory can raise or let through. */
  datatype Error =
    | NotAFunction                     // calling an undefined property as a function
    | PropertyOfUndefined              // reading `x[name]` where `x` is undefined or null
    | MissingCredentials(message: string)
    | JoinFailed(root: Value, file: Value)   // `path.join` threw
    | ReadFailed(path: string)               // `fs.readFileSync` threw

  datatype Result<+T> = Ok(value: T) | Err(error: Error)

  /** JavaScript truthiness: `undefined`, `null`, `false`, `0` and `""` are falsy,
      every object (arrays, buffers and functions included) is truthy. */
  predicate Truthy(v: Value)
  {
    match v
    case Undefined => false
    case Null => false
    case Bool(b) => b
    case Num(n) => n != 0
    case Str(s) => s != ""
    case _ => true
  }

  /** `obj[name]` on a record held as a map: an absent key reads as `undefined`. */
  function Get(fields: map<string, Value>, name: string): (v: Value)
    ensures name in fields ==> v == fields[name]
    ensures name !in fields ==> v == Undefined
  {
    if name in fields then fields[name] else Undefined
  }

  /** `v[name]` for a value that is neither `undefined` nor `null`: only a plain
      object has the named fields; the other values have none of the names the
      factory asks for. */
  function Member(v: Value, name: string): (m: Value)
    requires !v.Undefined? && !v.Null?
    ensures m != Undefined ==> v.Obj? && name in v.fields && m == v.fields[name]
  {
    if v.Obj? then Get(v.fields, name) else Undefined
  }
}
