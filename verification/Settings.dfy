/** Settings from the configuration file, the environment and the command line (host/settings.zig). */
module Settings {
  import opened Bytes
  import opened Text
  import opened Config

  datatype Field =
    | Discovery | Bind | Subnet | DiscoveryPort | Port | Vhci | ReconnectMs
    | Clients | Allow | Deny | Psk

  datatype Kind = Str | PortNumber | U32 | Boolean | List

  datatype Desc = Desc(field: Field, flag: string, env: string, key: string, kind: Kind)

  const DESCS: seq<Desc> := [
    Desc(Discovery, "--discovery", "HCIBRIDGE_DISCOVERY", "discovery", Boolean),
    Desc(Bind, "--bind", "HCIBRIDGE_BIND", "bind", Str),
    Desc(Subnet, "--subnet", "HCIBRIDGE_SUBNET", "subnet", Str),
    Desc(DiscoveryPort, "--discovery-port", "HCIBRIDGE_DISCOVERY_PORT", "discovery-port", PortNumber),
    Desc(Port, "--port", "HCIBRIDGE_PORT", "port", PortNumber),
    Desc(Vhci, "--vhci", "HCIBRIDGE_VHCI", "vhci", Str),
    Desc(ReconnectMs, "--reconnect-ms", "HCIBRIDGE_RECONNECT_MS", "reconnect-ms", U32),
    Desc(Clients, "--client", "HCIBRIDGE_CLIENTS", "client", List),
    Desc(Allow, "--allow", "HCIBRIDGE_ALLOW", "allow", List),
    Desc(Deny, "--deny", "HCIBRIDGE_DENY", "deny", List),
    Desc(Psk, "--psk", "HCIBRIDGE_PSK", "psk", List)
  ]

  /** The first description from position i on with this flag. */
  function FindFlag(flag: string, i: nat): (r: Option<Desc>)
    ensures r.Some? ==> r.value in DESCS && r.value.flag == flag
    decreases |DESCS| - i
  {
    if i >= |DESCS| then None else if DESCS[i].flag == flag then Some(DESCS[i]) else FindFlag(flag, i + 1)
  }

  function FindKey(key: string, i: nat): (r: Option<Desc>)
    ensures r.Some? ==> r.value in DESCS && r.value.key == key
    decreases |DESCS| - i
  {
    if i >= |DESCS| then None else if DESCS[i].key == key then Some(DESCS[i]) else FindKey(key, i + 1)
  }

  function DescByFlag(flag: string): Option<Desc> {
    FindFlag(flag, 0)
  }

  function DescByKey(key: string): Option<Desc> {
    FindKey(key, 0)
  }

  function ParseBool(v: string): Option<bool> {
    if EqualIgnoreCase(v, "on") || EqualIgnoreCase(v, "true") || EqualIgnoreCase(v, "yes") || v == "1" then Some(true)
    else if EqualIgnoreCase(v, "off") || EqualIgnoreCase(v, "false") || EqualIgnoreCase(v, "no") || v == "0" then Some(false)
    else None
  }

  // ------------------------------------------------------------------
  // Layers
  // ------------------------------------------------------------------

  /** One value on its way into a field. */
  datatype Layer = Layer(field: Field, value: string)

  datatype Error = MissingValue | BadArgument

  function ConfLayer(p: Pair): seq<Layer> {
    var d := DescByKey(p.key);
    if d.None? then [] else [Layer(d.value.field, p.value)]
  }

  function ConfLayers(pairs: seq<Pair>): seq<Layer> {
    if pairs == [] then [] else ConfLayer(pairs[0]) + ConfLayers(pairs[1..])
  }

  /** The non-blank items of a comma-separated environment value. */
  function Items(parts: seq<string>, field: Field): seq<Layer> {
    if parts == [] then []
    else
      var t := Trim(parts[0], " ");
      (if t == "" then [] else [Layer(field, t)]) + Items(parts[1..], field)
  }

  function EnvLayer(d: Desc, env: map<string, string>): seq<Layer> {
    if d.env !in env then []
    else if d.kind == List then Items(Split(env[d.env], ','), d.field)
    else [Layer(d.field, env[d.env])]
  }

  function EnvLayers(ds: seq<Desc>, env: map<string, string>): seq<Layer> {
    if ds == [] then [] else EnvLayer(ds[0], env) + EnvLayers(ds[1..], env)
  }

  /** What one option contributes, and how many arguments it takes. */
  datatype ParsedOption = ParsedOption(layers: seq<Layer>, once: bool, width: nat)

  /** The option that starts the arguments. */
  function FirstOption(args: seq<string>): (r: Result<ParsedOption, Error>)
    requires args != []
    ensures r.Ok? ==> 1 <= r.value.width <= 2 && r.value.width <= |args|
  {
    var arg := args[0];
    if arg == "--once" then Ok(ParsedOption([], true, 1))
    else if arg == "--host" then
      if |args| < 2 then Err(MissingValue)
      else Ok(ParsedOption([Layer(Clients, args[1]), Layer(Discovery, "off")], false, 2))
    else if arg == "--no-discovery" then Ok(ParsedOption([Layer(Discovery, "off")], false, 1))
    else if |arg| < 2 || arg[..2] != "--" then Err(BadArgument)
    else
      var d := DescByFlag(arg);
      if d.None? then Err(BadArgument)
      else if d.value.kind == Boolean then
        if |args| >= 2 && ParseBool(args[1]).Some? then Ok(ParsedOption([Layer(d.value.field, args[1])], false, 2))
        else Ok(ParsedOption([Layer(d.value.field, "on")], false, 1))
      else if |args| < 2 then Err(MissingValue)
      else Ok(ParsedOption([Layer(d.value.field, args[1])], false, 2))
  }

  datatype Flags = Flags(layers: seq<Layer>, once: bool)

  function Prepend(layers: seq<Layer>, once: bool, r: Result<Flags, Error>): Result<Flags, Error> {
    match r
    case Err(e) => Err(e)
    case Ok(f) => Ok(Flags(layers + f.layers, once || f.once))
  }

  /** The command line, option by option. */
  function FlagLayers(args: seq<string>): Result<Flags, Error>
    decreases |args|
  {
    if args == [] then Ok(Flags([], false))
    else
      match FirstOption(args)
      case Err(e) => Err(e)
      case Ok(o) => Prepend(o.layers, o.once, FlagLayers(args[o.width..]))
  }

  // ------------------------------------------------------------------
  // Declarative specification
  // ------------------------------------------------------------------

  /** The values given to a field, in order. */
  function Values(layers: seq<Layer>, f: Field): seq<string> {
    if layers == [] then []
    else (if layers[0].field == f then [layers[0].value] else []) + Values(layers[1..], f)
  }

  /** The last value that is there. */
  function LastSome<T>(xs: seq<Option<T>>): Option<T> {
    if xs == [] then None
    else if xs[|xs| - 1].Some? then xs[|xs| - 1]
    else LastSome(xs[..|xs| - 1])
  }

  predicate NoneFrom<T(!new)>(xs: seq<Option<T>>, i: nat) {
    forall j :: i <= j < |xs| ==> xs[j].None?
  }

  /** LastSome is the value at i exactly when nothing after i is there, and nothing when nothing is. */
  lemma {:induction false} LastSomeIs<T(!new)>(xs: seq<Option<T>>, i: nat)
    ensures NoneFrom(xs, 0) <==> LastSome(xs).None?
    ensures i < |xs| && xs[i].Some? && NoneFrom(xs, i + 1) ==> LastSome(xs) == xs[i]
  {
    if xs != [] {
      var rest := xs[..|xs| - 1];
      LastSomeIs(rest, i);
      if NoneFrom(rest, 0) && xs[|xs| - 1].None? {
        assert forall j :: 0 <= j < |xs| ==> xs[j].None? by {
          assert forall j :: 0 <= j < |rest| ==> xs[j] == rest[j];
        }
      }
    }
  }

  function Or<T>(x: Option<T>, default: T): T {
    if x.Some? then x.value else default
  }

  function Bools(vs: seq<string>): (r: seq<Option<bool>>)
    ensures |r| == |vs| && forall i :: 0 <= i < |vs| ==> r[i] == ParseBool(vs[i])
  {
    seq(|vs|, i requires 0 <= i < |vs| => ParseBool(vs[i]))
  }

  function Numbers(vs: seq<string>, max: nat): (r: seq<Option<nat>>)
    ensures |r| == |vs| && forall i :: 0 <= i < |vs| ==> r[i] == ParseInt(vs[i], max)
  {
    seq(|vs|, i requires 0 <= i < |vs| => ParseInt(vs[i], max))
  }

  function Texts(vs: seq<string>): (r: seq<Option<string>>)
    ensures |r| == |vs| && forall i :: 0 <= i < |vs| ==> r[i] == Some(vs[i])
  {
    seq(|vs|, i requires 0 <= i < |vs| => Some(vs[i]))
  }

  const U16_MAX := 0xffff
  const U32_MAX := 0xffff_ffff

  datatype Settings = Settings(
    discovery: bool, bind: string, subnet: string, discoveryPort: nat, port: nat, vhci: string, reconnectMs: nat,
    clients: seq<string>, allow: seq<string>, deny: seq<string>, psk: seq<string>, once: bool)

  const DEFAULTS := Settings(true, "0.0.0.0", "", 4445, 4444, "/dev/vhci", 1000, [], [], [], [], false)

  /** Each scalar is the last value that parses, else what it was; each list is extended in order. */
  function Declared(base: Settings, layers: seq<Layer>): Settings {
    Settings(
      Or(LastSome(Bools(Values(layers, Discovery))), base.discovery),
      Or(LastSome(Texts(Values(layers, Bind))), base.bind),
      Or(LastSome(Texts(Values(layers, Subnet))), base.subnet),
      Or(LastSome(Numbers(Values(layers, DiscoveryPort), U16_MAX)), base.discoveryPort),
      Or(LastSome(Numbers(Values(layers, Port), U16_MAX)), base.port),
      Or(LastSome(Texts(Values(layers, Vhci))), base.vhci),
      Or(LastSome(Numbers(Values(layers, ReconnectMs), U32_MAX)), base.reconnectMs),
      base.clients + Values(layers, Clients),
      base.allow + Values(layers, Allow),
      base.deny + Values(layers, Deny),
      base.psk + Values(layers, Psk),
      base.once)
  }

  /** What resolve promises: config, then environment, then flags, over the defaults. */
  function Resolved(pairs: seq<Pair>, env: map<string, string>, args: seq<string>): Result<Settings, Error> {
    match FlagLayers(args)
    case Err(e) => Err(e)
    case Ok(f) => Ok(Declared(DEFAULTS.(once := f.once), ConfLayers(pairs) + EnvLayers(DESCS, env) + f.layers))
  }

  // ------------------------------------------------------------------
  // Concatenation laws
  // ------------------------------------------------------------------

  lemma {:induction false} ValuesConcat(a: seq<Layer>, b: seq<Layer>, f: Field)
    ensures Values(a + b, f) == Values(a, f) + Values(b, f)
  {
    if a == [] {
      assert a + b == b;
    } else {
      TailOfConcat(a, b);
      ValuesConcat(a[1..], b, f);
      Assoc(if a[0].field == f then [a[0].value] else [], Values(a[1..], f), Values(b, f));
    }
  }

  lemma {:induction false} LastSomeConcat<T>(a: seq<Option<T>>, b: seq<Option<T>>)
    ensures LastSome(a + b) == if LastSome(b).Some? then LastSome(b) else LastSome(a)
  {
    if b == [] {
      assert a + b == a;
    } else {
      var n := |b| - 1;
      assert (a + b)[|a + b| - 1] == b[n];
      assert (a + b)[..|a + b| - 1] == a + b[..n];
      LastSomeConcat(a, b[..n]);
    }
  }

  lemma {:induction false} ConfLayersConcat(a: seq<Pair>, b: seq<Pair>)
    ensures ConfLayers(a + b) == ConfLayers(a) + ConfLayers(b)
  {
    hide ConfLayer;
    if a == [] {
      assert a + b == b;
    } else {
      TailOfConcat(a, b);
      ConfLayersConcat(a[1..], b);
      Assoc(ConfLayer(a[0]), ConfLayers(a[1..]), ConfLayers(b));
    }
  }

  lemma {:induction false} ItemsConcat(a: seq<string>, b: seq<string>, f: Field)
    ensures Items(a + b, f) == Items(a, f) + Items(b, f)
  {
    hide Trim;
    if a == [] {
      assert a + b == b;
    } else {
      TailOfConcat(a, b);
      ItemsConcat(a[1..], b, f);
      Assoc(if Trim(a[0], " ") == "" then [] else [Layer(f, Trim(a[0], " "))], Items(a[1..], f), Items(b, f));
    }
  }

  lemma {:induction false} EnvLayersConcat(a: seq<Desc>, b: seq<Desc>, env: map<string, string>)
    ensures EnvLayers(a + b, env) == EnvLayers(a, env) + EnvLayers(b, env)
  {
    hide EnvLayer;
    if a == [] {
      assert a + b == b;
    } else {
      TailOfConcat(a, b);
      EnvLayersConcat(a[1..], b, env);
      Assoc(EnvLayer(a[0], env), EnvLayers(a[1..], env), EnvLayers(b, env));
    }
  }
}
