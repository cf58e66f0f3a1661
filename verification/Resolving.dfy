/** resolve (host/settings.zig): the loops over the three sources, against the declarative specification. */
module Resolving {
  import opened Bytes
  import opened Text
  import opened Config
  import opened Settings

  // ------------------------------------------------------------------
  // One layer over another
  // ------------------------------------------------------------------

  lemma BoolOver(a: seq<string>, b: seq<string>, default: bool)
    ensures Or(LastSome(Bools(a + b)), default) == Or(LastSome(Bools(b)), Or(LastSome(Bools(a)), default))
  {
    hide LastSome, ParseBool;
    assert Bools(a + b) == Bools(a) + Bools(b);
    LastSomeConcat(Bools(a), Bools(b));
  }

  lemma NumberOver(a: seq<string>, b: seq<string>, max: nat, default: nat)
    ensures Or(LastSome(Numbers(a + b, max)), default) ==
            Or(LastSome(Numbers(b, max)), Or(LastSome(Numbers(a, max)), default))
  {
    hide LastSome, ParseInt;
    assert Numbers(a + b, max) == Numbers(a, max) + Numbers(b, max);
    LastSomeConcat(Numbers(a, max), Numbers(b, max));
  }

  lemma TextOver(a: seq<string>, b: seq<string>, default: string)
    ensures Or(LastSome(Texts(a + b)), default) == Or(LastSome(Texts(b)), Or(LastSome(Texts(a)), default))
  {
    hide LastSome;
    assert Texts(a + b) == Texts(a) + Texts(b);
    LastSomeConcat(Texts(a), Texts(b));
  }

  lemma ScalarsOver(base: Settings, a: seq<Layer>, b: seq<Layer>)
    ensures var s, t := Declared(base, a + b), Declared(Declared(base, a), b);
      && s.discovery == t.discovery && s.bind == t.bind && s.subnet == t.subnet && s.vhci == t.vhci
      && s.discoveryPort == t.discoveryPort && s.port == t.port && s.reconnectMs == t.reconnectMs
  {
    hide Values, LastSome, Bools, Numbers, Texts, Or;
    ValuesConcat(a, b, Discovery);
    BoolOver(Values(a, Discovery), Values(b, Discovery), base.discovery);
    ValuesConcat(a, b, Bind);
    TextOver(Values(a, Bind), Values(b, Bind), base.bind);
    ValuesConcat(a, b, Subnet);
    TextOver(Values(a, Subnet), Values(b, Subnet), base.subnet);
    ValuesConcat(a, b, Vhci);
    TextOver(Values(a, Vhci), Values(b, Vhci), base.vhci);
    ValuesConcat(a, b, DiscoveryPort);
    NumberOver(Values(a, DiscoveryPort), Values(b, DiscoveryPort), U16_MAX, base.discoveryPort);
    ValuesConcat(a, b, Port);
    NumberOver(Values(a, Port), Values(b, Port), U16_MAX, base.port);
    ValuesConcat(a, b, ReconnectMs);
    NumberOver(Values(a, ReconnectMs), Values(b, ReconnectMs), U32_MAX, base.reconnectMs);
  }

  lemma ListsOver(base: Settings, a: seq<Layer>, b: seq<Layer>)
    ensures var s, t := Declared(base, a + b), Declared(Declared(base, a), b);
      s.clients == t.clients && s.allow == t.allow && s.deny == t.deny && s.psk == t.psk
  {
    hide Values, LastSome, Bools, Numbers, Texts, Or;
    ValuesConcat(a, b, Clients);
    Assoc(base.clients, Values(a, Clients), Values(b, Clients));
    ValuesConcat(a, b, Allow);
    Assoc(base.allow, Values(a, Allow), Values(b, Allow));
    ValuesConcat(a, b, Deny);
    Assoc(base.deny, Values(a, Deny), Values(b, Deny));
    ValuesConcat(a, b, Psk);
    Assoc(base.psk, Values(a, Psk), Values(b, Psk));
  }

  /** A later source is laid over the result of the earlier ones. */
  lemma LaterOverEarlier(base: Settings, a: seq<Layer>, b: seq<Layer>)
    ensures Declared(base, a + b) == Declared(Declared(base, a), b)
  {
    hide Values, LastSome, Bools, Numbers, Texts, Or;
    ScalarsOver(base, a, b);
    ListsOver(base, a, b);
  }

  /** Precedence: flags over environment over configuration over defaults, for every field at once. */
  lemma Precedence(pairs: seq<Pair>, env: map<string, string>, args: seq<string>)
    ensures var flags := FlagLayers(args);
      Resolved(pairs, env, args) ==
      if flags.Err? then Err(flags.error)
      else
        var conf := Declared(DEFAULTS.(once := flags.value.once), ConfLayers(pairs));
        Ok(Declared(Declared(conf, EnvLayers(DESCS, env)), flags.value.layers))
  {
    hide Declared, ConfLayers, EnvLayers, FlagLayers;
    match FlagLayers(args)
    case Err(_) =>
    case Ok(f) =>
      var base := DEFAULTS.(once := f.once);
      LaterOverEarlier(base, ConfLayers(pairs) + EnvLayers(DESCS, env), f.layers);
      LaterOverEarlier(base, ConfLayers(pairs), EnvLayers(DESCS, env));
  }

  // ------------------------------------------------------------------
  // The loops
  // ------------------------------------------------------------------

  /** What the resolving loop does with one layer. */
  function ApplyLayer(s: Settings, l: Layer): Settings {
    match l.field
    case Discovery => s.(discovery := Or(ParseBool(l.value), s.discovery))
    case Bind => s.(bind := l.value)
    case Subnet => s.(subnet := l.value)
    case DiscoveryPort => s.(discoveryPort := Or(ParseInt(l.value, U16_MAX), s.discoveryPort))
    case Port => s.(port := Or(ParseInt(l.value, U16_MAX), s.port))
    case Vhci => s.(vhci := l.value)
    case ReconnectMs => s.(reconnectMs := Or(ParseInt(l.value, U32_MAX), s.reconnectMs))
    case Clients => s.(clients := s.clients + [l.value])
    case Allow => s.(allow := s.allow + [l.value])
    case Deny => s.(deny := s.deny + [l.value])
    case Psk => s.(psk := s.psk + [l.value])
  }

  lemma ValuesOne(l: Layer, f: Field)
    ensures Values([l], f) == if l.field == f then [l.value] else []
  {
    assert Values([l][1..], f) == [];
  }

  lemma LastOfOne<T>(x: Option<T>)
    ensures LastSome([x]) == x
  {
    assert [x][..0] == [];
  }

  lemma OneBool(l: Layer, f: Field, default: bool)
    ensures Or(LastSome(Bools(Values([l], f))), default) == if l.field == f then Or(ParseBool(l.value), default) else default
  {
    ValuesOne(l, f);
    LastOfOne(ParseBool(l.value));
    assert Bools([l.value]) == [ParseBool(l.value)];
  }

  lemma OneNumber(l: Layer, f: Field, max: nat, default: nat)
    ensures Or(LastSome(Numbers(Values([l], f), max)), default) ==
            if l.field == f then Or(ParseInt(l.value, max), default) else default
  {
    ValuesOne(l, f);
    LastOfOne(ParseInt(l.value, max));
    assert Numbers([l.value], max) == [ParseInt(l.value, max)];
  }

  lemma OneText(l: Layer, f: Field, default: string)
    ensures Or(LastSome(Texts(Values([l], f))), default) == if l.field == f then l.value else default
  {
    ValuesOne(l, f);
    LastOfOne(Some(l.value));
    assert Texts([l.value]) == [Some(l.value)];
  }

  lemma OneItem(l: Layer, f: Field, items: seq<string>)
    ensures items + Values([l], f) == if l.field == f then items + [l.value] else items
  {
    ValuesOne(l, f);
  }

  lemma DeclaredNothing(base: Settings)
    ensures Declared(base, []) == base
  {
    assert base.clients + [] == base.clients;
    assert base.allow + [] == base.allow;
    assert base.deny + [] == base.deny;
    assert base.psk + [] == base.psk;
  }

  lemma DeclaredOne(base: Settings, l: Layer)
    ensures Declared(base, [l]) == ApplyLayer(base, l)
  {
    hide Values, LastSome, Bools, Numbers, Texts;
    OneBool(l, Discovery, base.discovery);
    OneText(l, Bind, base.bind);
    OneText(l, Subnet, base.subnet);
    OneNumber(l, DiscoveryPort, U16_MAX, base.discoveryPort);
    OneNumber(l, Port, U16_MAX, base.port);
    OneText(l, Vhci, base.vhci);
    OneNumber(l, ReconnectMs, U32_MAX, base.reconnectMs);
    OneItem(l, Clients, base.clients);
    OneItem(l, Allow, base.allow);
    OneItem(l, Deny, base.deny);
    OneItem(l, Psk, base.psk);
  }

  method ApplyLayers(base: Settings, layers: seq<Layer>) returns (s: Settings)
    ensures s == Declared(base, layers)
  {
    hide Declared, ApplyLayer;
    s := base;
    DeclaredNothing(base);
    var i := 0;
    while i < |layers|
      invariant 0 <= i <= |layers|
      invariant s == Declared(base, layers[..i])
    {
      TakeSnoc(layers, i);
      LaterOverEarlier(base, layers[..i], [layers[i]]);
      DeclaredOne(s, layers[i]);
      s := ApplyLayer(s, layers[i]);
      i := i + 1;
    }
    JoinSlices(layers, 0, |layers|, |layers|);
  }

  method CollectConf(pairs: seq<Pair>) returns (layers: seq<Layer>)
    ensures layers == ConfLayers(pairs)
  {
    hide ConfLayers, DescByKey;
    layers := [];
    assert ConfLayers(pairs[..0]) == [] by { NoConfLayers(); }
    var i := 0;
    while i < |pairs|
      invariant 0 <= i <= |pairs|
      invariant layers == ConfLayers(pairs[..i])
    {
      TakeSnoc(pairs, i);
      ConfLayersSnoc(pairs[..i], pairs[i]);
      var d := DescByKey(pairs[i].key);
      if d.Some? {
        layers := layers + [Layer(d.value.field, pairs[i].value)];
      }
      i := i + 1;
    }
    JoinSlices(pairs, 0, |pairs|, |pairs|);
  }

  lemma NoConfLayers()
    ensures ConfLayers([]) == []
  {
  }

  lemma ConfLayersSnoc(a: seq<Pair>, p: Pair)
    ensures ConfLayers([p]) == ConfLayer(p)
    ensures ConfLayers(a + [p]) == ConfLayers(a) + ConfLayer(p)
  {
    hide ConfLayer;
    assert ConfLayers([p]) == ConfLayer(p) + ConfLayers([]);
    ConfLayersConcat(a, [p]);
  }

  method CollectItems(v: string, field: Field) returns (layers: seq<Layer>)
    ensures layers == Items(Split(v, ','), field)
  {
    hide Trim;
    var parts := Split(v, ',');
    layers := [];
    var i := 0;
    while i < |parts|
      invariant 0 <= i <= |parts|
      invariant layers == Items(parts[..i], field)
    {
      TakeSnoc(parts, i);
      ItemsConcat(parts[..i], [parts[i]], field);
      assert [parts[i]][1..] == [];
      var t := Trim(parts[i], " ");
      if |t| > 0 {
        layers := layers + [Layer(field, t)];
      }
      i := i + 1;
    }
    JoinSlices(parts, 0, |parts|, |parts|);
  }

  method CollectEnv(env: map<string, string>) returns (layers: seq<Layer>)
    ensures layers == EnvLayers(DESCS, env)
  {
    hide DESCS, Items;
    layers := [];
    var i := 0;
    while i < |DESCS|
      invariant 0 <= i <= |DESCS|
      invariant layers == EnvLayers(DESCS[..i], env)
    {
      var d := DESCS[i];
      TakeSnoc(DESCS, i);
      EnvLayersSnoc(DESCS[..i], d, env);
      if d.env in env {
        if d.kind == List {
          var items := CollectItems(env[d.env], d.field);
          layers := layers + items;
        } else {
          layers := layers + [Layer(d.field, env[d.env])];
        }
      }
      i := i + 1;
    }
    JoinSlices(DESCS, 0, |DESCS|, |DESCS|);
  }

  lemma EnvLayersSnoc(a: seq<Desc>, d: Desc, env: map<string, string>)
    ensures EnvLayers(a + [d], env) == EnvLayers(a, env) + EnvLayer(d, env)
  {
    hide EnvLayer;
    EnvLayersConcat(a, [d], env);
    assert EnvLayers([d], env) == EnvLayer(d, env) + EnvLayers([], env);
  }

  /** The command line loop: an index that advances by one or two arguments. */
  method CollectFlags(args: seq<string>) returns (r: Result<Flags, Error>)
    ensures r == FlagLayers(args)
  {
    hide FlagLayers, DescByFlag, ParseBool, Prepend;
    var layers: seq<Layer>, once := [], false;
    var i := 0;
    PrependNothing(FlagLayers(args));
    JoinSlices(args, 0, 0, |args|);
    while i < |args|
      invariant 0 <= i <= |args|
      invariant FlagLayers(args) == Prepend(layers, once, FlagLayers(args[i..]))
    {
      FlagLayersFirst(args[i..]);
      PrependError(layers, once);
      assert args[i..][0] == args[i];
      assert i + 1 < |args| ==> args[i..][1] == args[i + 1];
      var add: seq<Layer>, width := [], 1;
      ghost var was := once;
      if args[i] == "--once" {
        once := true;
      } else if args[i] == "--host" {
        if i + 1 >= |args| {
          return Err(MissingValue);
        }
        add, width := [Layer(Clients, args[i + 1]), Layer(Discovery, "off")], 2;
      } else if args[i] == "--no-discovery" {
        add := [Layer(Discovery, "off")];
      } else if |args[i]| >= 2 && args[i][..2] == "--" {
        var d := DescByFlag(args[i]);
        if d.None? {
          return Err(BadArgument);
        }
        if d.value.kind == Boolean {
          if i + 1 < |args| && ParseBool(args[i + 1]).Some? {
            add, width := [Layer(d.value.field, args[i + 1])], 2;
          } else {
            add := [Layer(d.value.field, "on")];
          }
        } else {
          if i + 1 >= |args| {
            return Err(MissingValue);
          }
          add, width := [Layer(d.value.field, args[i + 1])], 2;
        }
      } else {
        return Err(BadArgument);
      }
      assert FirstOption(args[i..]) == Ok(ParsedOption(add, args[i] == "--once", width));
      PrependTwice(layers, was, add, args[i] == "--once", FlagLayers(args[i..][width..]));
      assert args[i..][width..] == args[i + width..];
      layers, i := layers + add, i + width;
    }
    FlagLayersEnd(args, layers, once);
    return Ok(Flags(layers, once));
  }

  lemma FlagLayersFirst(args: seq<string>)
    requires args != []
    ensures var o := FirstOption(args);
      FlagLayers(args) ==
      if o.Err? then Err(o.error) else Prepend(o.value.layers, o.value.once, FlagLayers(args[o.value.width..]))
  {
    hide FirstOption, Prepend;
  }

  lemma FlagLayersEnd(args: seq<string>, layers: seq<Layer>, once: bool)
    ensures Prepend(layers, once, FlagLayers(args[|args|..])) == Ok(Flags(layers, once))
  {
    assert args[|args|..] == [];
    assert layers + [] == layers;
  }

  lemma PrependNothing(r: Result<Flags, Error>)
    ensures Prepend([], false, r) == r
  {
    if r.Ok? {
      assert [] + r.value.layers == r.value.layers;
    }
  }

  lemma PrependError(layers: seq<Layer>, once: bool)
    ensures forall e :: Prepend(layers, once, Err(e)) == Err(e)
  {
  }

  lemma PrependTwice(a: seq<Layer>, p: bool, b: seq<Layer>, q: bool, r: Result<Flags, Error>)
    ensures Prepend(a, p, Prepend(b, q, r)) == Prepend(a + b, p || q, r)
  {
    if r.Ok? {
      Assoc(a, b, r.value.layers);
    }
  }

  /** resolve, as a whole. */
  method Resolve(pairs: seq<Pair>, env: map<string, string>, args: seq<string>) returns (r: Result<Settings, Error>)
    ensures r == Resolved(pairs, env, args)
  {
    hide Declared, ConfLayers, EnvLayers, FlagLayers;
    var conf := CollectConf(pairs);
    var fromEnv := CollectEnv(env);
    var flags := CollectFlags(args);
    if flags.Err? {
      return Err(flags.error);
    }
    var s := ApplyLayers(DEFAULTS.(once := flags.value.once), conf + fromEnv + flags.value.layers);
    return Ok(s);
  }
}
