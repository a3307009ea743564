/** Option normalisation and tier selection: the first part of `create`. */
module Config {
  import opened Values

  /** The options object `create` works on. It is the caller's own object when
      one is passed, and `create` rewrites its credential fields in place. */
  class Options {
    var fields: map<string, Value>

    constructor (fields: map<string, Value>)
      ensures this.fields == fields
    {
      this.fields := fields;
    }
  }

  /** The first argument of `create`: a number, a plain object, or anything
      else (a string, an array, `null`, ...), for which no options are set. */
  datatype Input = Port(n: int) | Given(obj: Options) | Unsupported

  /** The port assumed when none (or a falsy one) is given: HTTPS by default. */
  const DefaultPort: int := 443

  datatype Tier = Http | Https | Spdy

  /** The name of the tier, which is also the name of its announcement callback. */
  function TierName(t: Tier): (name: string)
    ensures name in {"http", "https", "spdy"}
  {
    match t
    case Http => "http"
    case Https => "https"
    case Spdy => "spdy"
  }

  /** The record a bare port number stands for: `{ port: n }`. */
  function PortOptions(n: int): (fields: map<string, Value>)
    ensures fields.Keys == {"port"} && fields["port"] == Num(n)
  {
    map["port" := Num(n)]
  }

  /** `options.port || 443`. */
  function EffectivePort(fields: map<string, Value>): (port: Value)
  {
    if Truthy(Get(fields, "port")) then Get(fields, "port") else Num(DefaultPort)
  }

  /** `options.key && options.cert`, as a condition. */
  predicate Certs(fields: map<string, Value>)
  {
    Truthy(Get(fields, "key")) && Truthy(Get(fields, "cert"))
  }

  /** `certs || 443 === port`: strict equality, so only the number 443 counts. */
  predicate Secure(fields: map<string, Value>)
  {
    Certs(fields) || EffectivePort(fields) == Num(DefaultPort)
  }

  /** The tier, by precedence: the presence of the key `spdy` (whatever its
      value), then certificates or port 443, then plain HTTP. */
  function SelectTier(fields: map<string, Value>): (t: Tier)
    ensures t == Spdy <==> "spdy" in fields
    ensures t == Https <==> "spdy" !in fields && (Certs(fields) || EffectivePort(fields) == Num(443))
    ensures t == Http <==> "spdy" !in fields && !Certs(fields) && EffectivePort(fields) != Num(443)
  {
    if "spdy" in fields then Spdy
    else if Secure(fields) then Https
    else Http
  }

  /** True when an encrypted tier is not left without key and certificate,
      that is, when `create` does not throw its configuration error. */
  predicate CredentialCheck(fields: map<string, Value>)
  {
    !((Secure(fields) || "spdy" in fields) && !Certs(fields))
  }

  /** A falsy or absent port becomes 443; a truthy one is kept as given. */
  lemma PortDefaulting(fields: map<string, Value>)
    ensures "port" !in fields ==> EffectivePort(fields) == Num(443)
    ensures "port" in fields && !Truthy(fields["port"]) ==> EffectivePort(fields) == Num(443)
    ensures "port" in fields && Truthy(fields["port"]) ==> EffectivePort(fields) == fields["port"]
    ensures Truthy(EffectivePort(fields))
  {
  }

  /** A bare number `n` listens on `n`, except that 0 means 443. */
  lemma BarePortDefaulting(n: int)
    ensures EffectivePort(PortOptions(n)) == Num(if n == 0 then 443 else n)
  {
  }

  /** The check passes exactly when the chosen tier is plain HTTP or the
      key and certificate are both there. */
  lemma CredentialCheckByTier(fields: map<string, Value>)
    ensures CredentialCheck(fields) <==> SelectTier(fields) == Http || Certs(fields)
  {
  }

  /** Once the check has passed, `secure` holds exactly when certificates are
      present, and the tier is encrypted exactly when `secure` holds; so a
      `spdy` tier never proceeds without certificates. */
  lemma PastCheckSecureIsCerts(fields: map<string, Value>)
    requires CredentialCheck(fields)
    ensures Secure(fields) <==> Certs(fields)
    ensures SelectTier(fields) != Http <==> Certs(fields)
    ensures SelectTier(fields) == Spdy ==> Certs(fields)
  {
  }

  /** A bare port never selects `spdy`; it fails the check on port 443 (or 0)
      and selects plain HTTP on every other port. */
  lemma BarePortTier(n: int)
    ensures SelectTier(PortOptions(n)) != Spdy
    ensures CredentialCheck(PortOptions(n)) <==> n != 0 && n != 443
    ensures CredentialCheck(PortOptions(n)) ==> SelectTier(PortOptions(n)) == Http
  {
  }
}
