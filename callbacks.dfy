/** Callback normalisation, `create.fns` (index.js:117-135): a bare function is
    the `listening` callback; otherwise only the known names whose values are
    functions are kept. */
module Callbacks {
  import opened Values

  /** The normalised callback set: a name mapped to the function it names. */
  type Callbacks = map<string, nat>

  /** The names `create.fns` copies, in the order it visits them. */
  const CallbackNames: seq<string> := ["close", "request", "listening", "http", "https", "spdy"]

  /** The callbacks kept from `names`, one name at a time, as the `forEach`
      assigns them. */
  function Collect(fn: Value, names: seq<string>): (cbs: Callbacks)
    requires !fn.Undefined? && !fn.Null?
    decreases |names|
  {
    if names == [] then map[]
    else
      var kept := Collect(fn, names[..|names| - 1]);
      var name := names[|names| - 1];
      if Member(fn, name).Func? then kept[name := Member(fn, name).id] else kept
  }

  /** A name is kept exactly when it is one of `names` and `fn` holds a
      function under it, and it is kept with that function. */
  lemma {:induction false} CollectKeeps(fn: Value, names: seq<string>)
    requires !fn.Undefined? && !fn.Null?
    ensures forall name :: name in Collect(fn, names) <==> name in names && Member(fn, name).Func?
    ensures forall name :: name in Collect(fn, names) ==> Collect(fn, names)[name] == Member(fn, name).id
    decreases |names|
  {
    if names != [] {
      var pre := names[..|names| - 1];
      CollectKeeps(fn, pre);
      assert names == pre + [names[|names| - 1]];
      assert forall name :: name in names <==> name in pre || name == names[|names| - 1];
    }
  }

  /** What `create.fns(fn)` returns, or the TypeError it raises when `fn` is
      `undefined` or `null` (reading `fn[name]`). */
  function NormalizedCallbacks(fn: Value): (r: Result<Callbacks>)
  {
    if fn.Func? then Ok(map["listening" := fn.id])
    else if fn.Undefined? || fn.Null? then Err(PropertyOfUndefined)
    else Ok(Collect(fn, CallbackNames))
  }

  /** A bare function becomes `{ listening: fn }`; otherwise the result holds
      exactly the known names bound to functions, so `upgrade`, `error` and
      every other name are dropped; only a missing argument throws. */
  lemma NormalizedCallbacksFilter(fn: Value)
    ensures fn.Func? ==> NormalizedCallbacks(fn) == Ok(map["listening" := fn.id])
    ensures NormalizedCallbacks(fn).Err? <==> fn.Undefined? || fn.Null?
    ensures !fn.Func? && NormalizedCallbacks(fn).Ok? ==>
      forall name :: name in NormalizedCallbacks(fn).value <==> name in CallbackNames && Member(fn, name).Func?
    ensures !fn.Func? && NormalizedCallbacks(fn).Ok? ==>
      forall name :: name in NormalizedCallbacks(fn).value ==> NormalizedCallbacks(fn).value[name] == Member(fn, name).id
    ensures NormalizedCallbacks(fn).Ok? ==>
      "upgrade" !in NormalizedCallbacks(fn).value && "error" !in NormalizedCallbacks(fn).value
  {
    if !fn.Func? && !fn.Undefined? && !fn.Null? {
      CollectKeeps(fn, CallbackNames);
    }
  }

  /** `create.fns`: the loop that fills `callbacks`. */
  method Fns(fn: Value) returns (r: Result<Callbacks>)
    ensures r == NormalizedCallbacks(fn)
  {
    if fn.Func? {
      return Ok(map["listening" := fn.id]);
    }
    if fn.Undefined? || fn.Null? {
      // `fn['close']` throws on the first iteration, before anything is kept.
      return Err(PropertyOfUndefined);
    }
    var callbacks: Callbacks := map[];
    var i := 0;
    while i < |CallbackNames|
      invariant 0 <= i <= |CallbackNames|
      invariant callbacks == Collect(fn, CallbackNames[..i])
    {
      var name := CallbackNames[i];
      assert CallbackNames[..i + 1][..i] == CallbackNames[..i];
      var value := Member(fn, name);
      if value.Func? {
        callbacks := callbacks[name := value.id];
      }
      i := i + 1;
    }
    assert CallbackNames[..i] == CallbackNames;
    return Ok(callbacks);
  }
}
