/** The settings one by one (host/settings.zig): what a single value does under its configuration key, its environment
    variable and its flag, with the names and defaults spelled out. */
module Schema {
  import opened Bytes
  import opened Text
  import opened Config
  import opened Settings
  import opened Resolving

  // ------------------------------------------------------------------
  // Names are told apart
  // ------------------------------------------------------------------

  /** The table, row by row. */
  lemma DiscoveryRow()
    ensures |DESCS| == 11 && DESCS[0] == Desc(Discovery, "--discovery", "HCIBRIDGE_DISCOVERY", "discovery", Boolean) && DESCS[0].flag[..2] == "--"
  {
  }

  lemma BindRow()
    ensures |DESCS| == 11 && DESCS[1] == Desc(Bind, "--bind", "HCIBRIDGE_BIND", "bind", Str) && DESCS[1].flag[..2] == "--"
  {
  }

  lemma SubnetRow()
    ensures |DESCS| == 11 && DESCS[2] == Desc(Subnet, "--subnet", "HCIBRIDGE_SUBNET", "subnet", Str) && DESCS[2].flag[..2] == "--"
  {
  }

  lemma DiscoveryPortRow()
    ensures |DESCS| == 11 && DESCS[3] == Desc(DiscoveryPort, "--discovery-port", "HCIBRIDGE_DISCOVERY_PORT", "discovery-port", PortNumber) && DESCS[3].flag[..2] == "--"
  {
  }

  lemma PortRow()
    ensures |DESCS| == 11 && DESCS[4] == Desc(Port, "--port", "HCIBRIDGE_PORT", "port", PortNumber) && DESCS[4].flag[..2] == "--"
  {
  }

  lemma VhciRow()
    ensures |DESCS| == 11 && DESCS[5] == Desc(Vhci, "--vhci", "HCIBRIDGE_VHCI", "vhci", Str) && DESCS[5].flag[..2] == "--"
  {
  }

  lemma ReconnectMsRow()
    ensures |DESCS| == 11 && DESCS[6] == Desc(ReconnectMs, "--reconnect-ms", "HCIBRIDGE_RECONNECT_MS", "reconnect-ms", U32) && DESCS[6].flag[..2] == "--"
  {
  }

  lemma ClientsRow()
    ensures |DESCS| == 11 && DESCS[7] == Desc(Clients, "--client", "HCIBRIDGE_CLIENTS", "client", List) && DESCS[7].flag[..2] == "--"
  {
  }

  lemma AllowRow()
    ensures |DESCS| == 11 && DESCS[8] == Desc(Allow, "--allow", "HCIBRIDGE_ALLOW", "allow", List) && DESCS[8].flag[..2] == "--"
  {
  }

  lemma DenyRow()
    ensures |DESCS| == 11 && DESCS[9] == Desc(Deny, "--deny", "HCIBRIDGE_DENY", "deny", List) && DESCS[9].flag[..2] == "--"
  {
  }

  lemma PskRow()
    ensures |DESCS| == 11 && DESCS[10] == Desc(Psk, "--psk", "HCIBRIDGE_PSK", "psk", List) && DESCS[10].flag[..2] == "--"
  {
  }

  /** A length and a letter, different for every setting. */
  lemma KeySigns()
    ensures |DESCS| == 11
    ensures |DESCS[0].key| == 9 && DESCS[0].key[0] == 'd'
    ensures |DESCS[1].key| == 4 && DESCS[1].key[0] == 'b'
    ensures |DESCS[2].key| == 6 && DESCS[2].key[0] == 's'
    ensures |DESCS[3].key| == 14 && DESCS[3].key[0] == 'd'
    ensures |DESCS[4].key| == 4 && DESCS[4].key[0] == 'p'
    ensures |DESCS[5].key| == 4 && DESCS[5].key[0] == 'v'
    ensures |DESCS[6].key| == 12 && DESCS[6].key[0] == 'r'
    ensures |DESCS[7].key| == 6 && DESCS[7].key[0] == 'c'
    ensures |DESCS[8].key| == 5 && DESCS[8].key[0] == 'a'
    ensures |DESCS[9].key| == 4 && DESCS[9].key[0] == 'd'
    ensures |DESCS[10].key| == 3 && DESCS[10].key[0] == 'p'
  {
  }

  lemma FlagSigns()
    ensures |DESCS| == 11
    ensures |DESCS[0].flag| == 11 && DESCS[0].flag[2] == 'd'
    ensures |DESCS[1].flag| == 6 && DESCS[1].flag[2] == 'b'
    ensures |DESCS[2].flag| == 8 && DESCS[2].flag[2] == 's'
    ensures |DESCS[3].flag| == 16 && DESCS[3].flag[2] == 'd'
    ensures |DESCS[4].flag| == 6 && DESCS[4].flag[2] == 'p'
    ensures |DESCS[5].flag| == 6 && DESCS[5].flag[2] == 'v'
    ensures |DESCS[6].flag| == 14 && DESCS[6].flag[2] == 'r'
    ensures |DESCS[7].flag| == 8 && DESCS[7].flag[2] == 'c'
    ensures |DESCS[8].flag| == 7 && DESCS[8].flag[2] == 'a'
    ensures |DESCS[9].flag| == 6 && DESCS[9].flag[2] == 'd'
    ensures |DESCS[10].flag| == 5 && DESCS[10].flag[2] == 'p'
  {
  }

  lemma EnvSigns()
    ensures |DESCS| == 11
    ensures |DESCS[0].env| == 19 && DESCS[0].env[10] == 'D'
    ensures |DESCS[1].env| == 14 && DESCS[1].env[10] == 'B'
    ensures |DESCS[2].env| == 16 && DESCS[2].env[10] == 'S'
    ensures |DESCS[3].env| == 24 && DESCS[3].env[10] == 'D'
    ensures |DESCS[4].env| == 14 && DESCS[4].env[10] == 'P'
    ensures |DESCS[5].env| == 14 && DESCS[5].env[10] == 'V'
    ensures |DESCS[6].env| == 22 && DESCS[6].env[10] == 'R'
    ensures |DESCS[7].env| == 17 && DESCS[7].env[10] == 'C'
    ensures |DESCS[8].env| == 15 && DESCS[8].env[10] == 'A'
    ensures |DESCS[9].env| == 14 && DESCS[9].env[10] == 'D'
    ensures |DESCS[10].env| == 13 && DESCS[10].env[10] == 'P'
  {
  }

  lemma KeysDiffer(i: nat, j: nat)
    requires i < j < 11
    ensures |DESCS| == 11 && DESCS[i].key != DESCS[j].key
  {
    KeySigns();
    hide DESCS;
  }

  lemma FlagsDiffer(i: nat, j: nat)
    requires i < j < 11
    ensures |DESCS| == 11 && DESCS[i].flag != DESCS[j].flag
  {
    FlagSigns();
    hide DESCS;
  }

  lemma EnvsDiffer(i: nat, j: nat)
    requires i < j < 11
    ensures |DESCS| == 11 && DESCS[i].env != DESCS[j].env
  {
    EnvSigns();
    hide DESCS;
  }

  lemma {:induction false} KeyFound(i: nat, from: nat)
    requires from <= i < |DESCS| && |DESCS| == 11
    ensures FindKey(DESCS[i].key, from) == Some(DESCS[i])
    decreases i - from
  {
    if from < i {
      KeysDiffer(from, i);
      hide DESCS;
      KeyFound(i, from + 1);
    }
  }

  lemma {:induction false} FlagFound(i: nat, from: nat)
    requires from <= i < |DESCS| && |DESCS| == 11
    ensures FindFlag(DESCS[i].flag, from) == Some(DESCS[i])
    decreases i - from
  {
    if from < i {
      FlagsDiffer(from, i);
      hide DESCS;
      FlagFound(i, from + 1);
    }
  }

  /** An environment that sets one variable. */
  lemma {:induction false} EnvNone(ds: seq<Desc>, env: map<string, string>)
    requires forall i :: 0 <= i < |ds| ==> ds[i].env !in env
    ensures EnvLayers(ds, env) == []
  {
    if ds != [] {
      EnvNone(ds[1..], env);
    }
  }

  lemma EnvOne(i: nat, v: string)
    requires i < |DESCS| && |DESCS| == 11
    ensures EnvLayers(DESCS, map[DESCS[i].env := v]) == EnvLayer(DESCS[i], map[DESCS[i].env := v])
  {
    hide EnvLayer, EnvLayers;
    var d, env := DESCS[i], map[DESCS[i].env := v];
    forall j | 0 <= j < 11 && j != i
      ensures DESCS[j].env !in env
    {
      if j < i {
        EnvsDiffer(j, i);
      } else {
        EnvsDiffer(i, j);
      }
    }
    hide DESCS;
    var before, after := DESCS[..i], DESCS[i + 1..];
    assert DESCS == before + [d] + after;
    EnvNone(before, env);
    EnvNone(after, env);
    EnvLayersConcat(before + [d], after, env);
    EnvLayersSnoc(before, d, env);
    assert [] + EnvLayer(d, env) + [] == EnvLayer(d, env);
  }

  // ------------------------------------------------------------------
  // One value, one source
  // ------------------------------------------------------------------

  lemma NoLayers()
    ensures ConfLayers([]) == [] && FlagLayers([]) == Ok(Flags([], false)) && EnvLayers(DESCS, map[]) == []
  {
    hide DESCS;
    EnvNone(DESCS, map[]);
  }

  /** What the three sources make of one value, for a setting that is not a switch. */
  lemma OneValue(i: nat, v: string, source: string)
    requires i < |DESCS| && |DESCS| == 11 && DESCS[i].kind != Boolean
    requires |DESCS[i].flag| >= 2 && DESCS[i].flag[..2] == "--"
    requires DESCS[i].flag != "--once" && DESCS[i].flag != "--host" && DESCS[i].flag != "--no-discovery"
    ensures
      var d := DESCS[i];
      var s := Ok(ApplyLayer(DEFAULTS, Layer(d.field, v)));
      && Resolved([Pair(d.key, v, source)], map[], []) == s
      && Resolved([], map[], [d.flag, v]) == s
      && Resolved([], map[d.env := v], []) == Ok(Declared(DEFAULTS, EnvLayer(d, map[d.env := v])))
  {
    hide DESCS, Declared, ApplyLayer, EnvLayers, EnvLayer, FindKey, FindFlag;
    var d := DESCS[i];
    NoLayers();
    KeyFound(i, 0);
    ConfLayersSnoc([], Pair(d.key, v, source));
    FlagFound(i, 0);
    OneFlag(d, v);
    EnvOne(i, v);
    DeclaredOne(DEFAULTS, Layer(d.field, v));
    hide ConfLayers, FlagLayers;
    var l := [Layer(d.field, v)];
    assert l + [] + [] == l && [] + [] + l == l;
    var e := EnvLayer(d, map[d.env := v]);
    assert [] + e + [] == e;
  }

  lemma OneFlag(d: Desc, v: string)
    requires DescByFlag(d.flag) == Some(d) && d.kind != Boolean
    requires |d.flag| >= 2 && d.flag[..2] == "--"
    requires d.flag != "--once" && d.flag != "--host" && d.flag != "--no-discovery"
    ensures FlagLayers([d.flag, v]) == Ok(Flags([Layer(d.field, v)], false))
  {
    hide DescByFlag, ParseBool;
    var args := [d.flag, v];
    assert args[2..] == [];
    assert FirstOption(args) == Ok(ParsedOption([Layer(d.field, v)], false, 2));
    assert FlagLayers(args) == Prepend([Layer(d.field, v)], false, FlagLayers([]));
    assert [Layer(d.field, v)] + [] == [Layer(d.field, v)];
  }

  // ------------------------------------------------------------------
  // The settings
  // ------------------------------------------------------------------

  /** Without any source the documented defaults stand. */
  lemma Defaults()
    ensures Resolved([], map[], []) ==
      Ok(Settings(true, "0.0.0.0", "", 4445, 4444, "/dev/vhci", 1000, [], [], [], [], false))
  {
    hide DESCS, Declared;
    NoLayers();
    hide ConfLayers, EnvLayers, FlagLayers;
    DeclaredNothing(DEFAULTS);
    var none: seq<Layer> := [];
    assert none + none + none == [];
  }

  /** A scalar variable of the environment is one value. */
  lemma EnvScalar(d: Desc, v: string)
    requires d.kind != List
    ensures Declared(DEFAULTS, EnvLayer(d, map[d.env := v])) == ApplyLayer(DEFAULTS, Layer(d.field, v))
  {
    hide Declared, ApplyLayer;
    DeclaredOne(DEFAULTS, Layer(d.field, v));
  }

  /** The address to listen on. */
  lemma BindSetting(v: string, source: string)
    ensures
      var s := Ok(DEFAULTS.(bind := v));
      && Resolved([Pair("bind", v, source)], map[], []) == s
      && Resolved([], map["HCIBRIDGE_BIND" := v], []) == s
      && Resolved([], map[], ["--bind", v]) == s
  {
    hide DESCS;
    BindRow();
    ValueFlagIsOwn(1);
    hide Resolved, Declared;
    OneValue(1, v, source);
    EnvScalar(DESCS[1], v);
  }

  /** The range boards must be in. */
  lemma SubnetSetting(v: string, source: string)
    ensures
      var s := Ok(DEFAULTS.(subnet := v));
      && Resolved([Pair("subnet", v, source)], map[], []) == s
      && Resolved([], map["HCIBRIDGE_SUBNET" := v], []) == s
      && Resolved([], map[], ["--subnet", v]) == s
  {
    hide DESCS;
    SubnetRow();
    ValueFlagIsOwn(2);
    hide Resolved, Declared;
    OneValue(2, v, source);
    EnvScalar(DESCS[2], v);
  }

  /** The UDP port; what is no number from 0 to 65535 is ignored. */
  lemma DiscoveryPortSetting(v: string, source: string)
    ensures
      var s := Ok(DEFAULTS.(discoveryPort := Or(ParseInt(v, 65535), 4445)));
      && Resolved([Pair("discovery-port", v, source)], map[], []) == s
      && Resolved([], map["HCIBRIDGE_DISCOVERY_PORT" := v], []) == s
      && Resolved([], map[], ["--discovery-port", v]) == s
  {
    hide DESCS;
    DiscoveryPortRow();
    ValueFlagIsOwn(3);
    hide Resolved, Declared;
    OneValue(3, v, source);
    EnvScalar(DESCS[3], v);
  }

  /** The TCP port. */
  lemma PortSetting(v: string, source: string)
    ensures
      var s := Ok(DEFAULTS.(port := Or(ParseInt(v, 65535), 4444)));
      && Resolved([Pair("port", v, source)], map[], []) == s
      && Resolved([], map["HCIBRIDGE_PORT" := v], []) == s
      && Resolved([], map[], ["--port", v]) == s
  {
    hide DESCS;
    PortRow();
    ValueFlagIsOwn(4);
    hide Resolved, Declared;
    OneValue(4, v, source);
    EnvScalar(DESCS[4], v);
  }

  /** The device. */
  lemma VhciSetting(v: string, source: string)
    ensures
      var s := Ok(DEFAULTS.(vhci := v));
      && Resolved([Pair("vhci", v, source)], map[], []) == s
      && Resolved([], map["HCIBRIDGE_VHCI" := v], []) == s
      && Resolved([], map[], ["--vhci", v]) == s
  {
    hide DESCS;
    VhciRow();
    ValueFlagIsOwn(5);
    hide Resolved, Declared;
    OneValue(5, v, source);
    EnvScalar(DESCS[5], v);
  }

  /** The reconnect delay. */
  lemma ReconnectSetting(v: string, source: string)
    ensures
      var s := Ok(DEFAULTS.(reconnectMs := Or(ParseInt(v, 4294967295), 1000)));
      && Resolved([Pair("reconnect-ms", v, source)], map[], []) == s
      && Resolved([], map["HCIBRIDGE_RECONNECT_MS" := v], []) == s
      && Resolved([], map[], ["--reconnect-ms", v]) == s
  {
    hide DESCS;
    ReconnectMsRow();
    ValueFlagIsOwn(6);
    hide Resolved, Declared;
    OneValue(6, v, source);
    EnvScalar(DESCS[6], v);
  }

  /** Value flags are none of the flags that stand alone. */
  lemma ValueFlagIsOwn(i: nat)
    requires 1 <= i < 11
    ensures |DESCS| == 11 && DESCS[i].flag != "--once" && DESCS[i].flag != "--host" && DESCS[i].flag != "--no-discovery"
  {
    FlagSigns();
    hide DESCS;
    assert "--once"[2] == 'o' && "--host"[2] == 'h' && "--no-discovery"[2] == 'n';
  }

  /** The items of a comma-separated list. */
  function Listed(vs: seq<string>, f: Field): seq<Layer> {
    if vs == [] then [] else [Layer(f, vs[0])] + Listed(vs[1..], f)
  }

  /** An item that survives the splitting and trimming. */
  predicate PlainItem(v: string) {
    v != "" && Free(v, ',') && v[0] != ' ' && v[|v| - 1] != ' '
  }

  /** Items joined by commas come back one by one. */
  lemma {:induction false} ItemsOf(vs: seq<string>, f: Field)
    requires forall i :: 0 <= i < |vs| ==> PlainItem(vs[i])
    ensures Items(vs, f) == Listed(vs, f)
  {
    if vs != [] {
      TrimNothing(vs[0], " ");
      ItemsOf(vs[1..], f);
    }
  }

  lemma {:induction false} ValuesListed(vs: seq<string>, f: Field)
    ensures Values(Listed(vs, f), f) == vs
  {
    if vs != [] {
      ValuesListed(vs[1..], f);
    }
  }

  lemma {:induction false} ValuesOther(vs: seq<string>, f: Field, g: Field)
    requires f != g
    ensures Values(Listed(vs, f), g) == []
  {
    if vs != [] {
      ValuesOther(vs[1..], f, g);
    }
  }

  /** A list variable with plain items, spaces and empty places. */
  lemma EnvList(d: Desc, vs: seq<string>)
    requires d.kind == List && vs != [] && forall i :: 0 <= i < |vs| ==> PlainItem(vs[i])
    ensures EnvLayer(d, map[d.env := Join(vs, ',')]) == Listed(vs, d.field)
  {
    hide Items, Listed;
    SplitJoin(vs, ',');
    ItemsOf(vs, d.field);
  }

  /** Blank places in a list variable give nothing. */
  lemma BlankItem(parts: seq<string>, i: nat, f: Field)
    requires i < |parts| && (forall k :: 0 <= k < |parts[i]| ==> parts[i][k] == ' ')
    ensures Items(parts, f) == Items(parts[..i] + parts[i + 1..], f)
  {
    hide Items;
    AllSpaces(parts[i]);
    assert parts == parts[..i] + [parts[i]] + parts[i + 1..];
    ItemsConcat(parts[..i] + [parts[i]], parts[i + 1..], f);
    ItemsConcat(parts[..i], [parts[i]], f);
    ItemsConcat(parts[..i], parts[i + 1..], f);
    OneBlank(parts[i], f);
    assert Items(parts[..i], f) + [] == Items(parts[..i], f);
  }

  lemma OneBlank(p: string, f: Field)
    requires Trim(p, " ") == ""
    ensures Items([p], f) == []
  {
    assert [p][1..] == [];
  }

  lemma {:induction false} AllSpaces(p: string)
    requires forall k :: 0 <= k < |p| ==> p[k] == ' '
    ensures Trim(p, " ") == ""
  {
    if p != "" {
      assert p[0] == ' ' && forall k :: 0 <= k < |p| - 1 ==> p[1..][k] == p[k + 1];
      AllSpaces(p[1..]);
    }
  }

  lemma ClientsSetting(v: string, source: string, vs: seq<string>)
    requires vs != [] && forall i :: 0 <= i < |vs| ==> PlainItem(vs[i])
    ensures
      && Resolved([Pair("client", v, source)], map[], []) == Ok(DEFAULTS.(clients := [v]))
      && Resolved([], map[], ["--client", v]) == Ok(DEFAULTS.(clients := [v]))
      && Resolved([], map["HCIBRIDGE_CLIENTS" := Join(vs, ',')], []) == Ok(DEFAULTS.(clients := vs))
  {
    hide DESCS;
    ClientsRow();
    ValueFlagIsOwn(7);
    hide Resolved, Declared, Join, EnvLayer, Listed;
    OneValue(7, v, source);
    OneValue(7, Join(vs, ','), source);
    EnvList(DESCS[7], vs);
    DeclaredList(vs, Clients);
    assert [] + [v] == [v];
  }

  lemma AllowSetting(v: string, source: string, vs: seq<string>)
    requires vs != [] && forall i :: 0 <= i < |vs| ==> PlainItem(vs[i])
    ensures
      && Resolved([Pair("allow", v, source)], map[], []) == Ok(DEFAULTS.(allow := [v]))
      && Resolved([], map[], ["--allow", v]) == Ok(DEFAULTS.(allow := [v]))
      && Resolved([], map["HCIBRIDGE_ALLOW" := Join(vs, ',')], []) == Ok(DEFAULTS.(allow := vs))
  {
    hide DESCS;
    AllowRow();
    ValueFlagIsOwn(8);
    hide Resolved, Declared, Join, EnvLayer, Listed;
    OneValue(8, v, source);
    OneValue(8, Join(vs, ','), source);
    EnvList(DESCS[8], vs);
    DeclaredList(vs, Allow);
    assert [] + [v] == [v];
  }

  lemma DenySetting(v: string, source: string, vs: seq<string>)
    requires vs != [] && forall i :: 0 <= i < |vs| ==> PlainItem(vs[i])
    ensures
      && Resolved([Pair("deny", v, source)], map[], []) == Ok(DEFAULTS.(deny := [v]))
      && Resolved([], map[], ["--deny", v]) == Ok(DEFAULTS.(deny := [v]))
      && Resolved([], map["HCIBRIDGE_DENY" := Join(vs, ',')], []) == Ok(DEFAULTS.(deny := vs))
  {
    hide DESCS;
    DenyRow();
    ValueFlagIsOwn(9);
    hide Resolved, Declared, Join, EnvLayer, Listed;
    OneValue(9, v, source);
    OneValue(9, Join(vs, ','), source);
    EnvList(DESCS[9], vs);
    DeclaredList(vs, Deny);
    assert [] + [v] == [v];
  }

  lemma PskSetting(v: string, source: string, vs: seq<string>)
    requires vs != [] && forall i :: 0 <= i < |vs| ==> PlainItem(vs[i])
    ensures
      && Resolved([Pair("psk", v, source)], map[], []) == Ok(DEFAULTS.(psk := [v]))
      && Resolved([], map[], ["--psk", v]) == Ok(DEFAULTS.(psk := [v]))
      && Resolved([], map["HCIBRIDGE_PSK" := Join(vs, ',')], []) == Ok(DEFAULTS.(psk := vs))
  {
    hide DESCS;
    PskRow();
    ValueFlagIsOwn(10);
    hide Resolved, Declared, Join, EnvLayer, Listed;
    OneValue(10, v, source);
    OneValue(10, Join(vs, ','), source);
    EnvList(DESCS[10], vs);
    DeclaredList(vs, Psk);
    assert [] + [v] == [v];
  }

  /** A list field given values in one source, and nothing else. */
  lemma DeclaredList(vs: seq<string>, f: Field)
    requires f == Clients || f == Allow || f == Deny || f == Psk
    ensures Declared(DEFAULTS, Listed(vs, f)) ==
      match f
      case Clients => DEFAULTS.(clients := vs)
      case Allow => DEFAULTS.(allow := vs)
      case Deny => DEFAULTS.(deny := vs)
      case _ => DEFAULTS.(psk := vs)
  {
    hide Listed, Values, Bools, Numbers, Texts;
    forall g: Field
      ensures Values(Listed(vs, f), g) == if g == f then vs else []
    {
      if g == f {
        ValuesListed(vs, f);
      } else {
        ValuesOther(vs, f, g);
      }
    }
    NoneLast();
    assert [] + vs == vs;
  }

  lemma NoneLast()
    ensures LastSome(Bools([])).None? && LastSome(Texts([])).None? && forall max :: LastSome(Numbers([], max)).None?
  {
  }

  // ------------------------------------------------------------------
  // The switch
  // ------------------------------------------------------------------

  /** The words for on and off, in any letter case; the digits as they are. */
  lemma BoolWords(v: string)
    ensures ParseBool(v) == Some(true) <==> Lower(v) == "on" || Lower(v) == "true" || Lower(v) == "yes" || v == "1"
    ensures ParseBool(v) == Some(false) <==> Lower(v) == "off" || Lower(v) == "false" || Lower(v) == "no" || v == "0"
  {
    assert Lower("on") == "on" && Lower("true") == "true" && Lower("yes") == "yes";
    assert Lower("off") == "off" && Lower("false") == "false" && Lower("no") == "no";
    assert Lower("1") == "1" && Lower("0") == "0";
  }

  /** Discovery: a word from any source, a bare flag for on, and the flag that turns it off. */
  lemma DiscoverySetting(v: string, source: string)
    ensures
      var s := Ok(DEFAULTS.(discovery := Or(ParseBool(v), true)));
      && Resolved([Pair("discovery", v, source)], map[], []) == s
      && Resolved([], map["HCIBRIDGE_DISCOVERY" := v], []) == s
      && (ParseBool(v).Some? ==> Resolved([], map[], ["--discovery", v]) == s)
    ensures Resolved([], map[], ["--discovery"]) == Ok(DEFAULTS.(discovery := true))
    ensures Resolved([], map[], ["--no-discovery"]) == Ok(DEFAULTS.(discovery := false))
  {
    hide DESCS;
    DiscoveryRow();
    DiscoveryLayers(v, source);
    WordsOnOff();
    hide DESCS, Declared, ParseBool, ConfLayers, FlagLayers, EnvLayers;
    DeclaredOne(DEFAULTS, Layer(Discovery, v));
    DeclaredOne(DEFAULTS, Layer(Discovery, "on"));
    DeclaredOne(DEFAULTS, Layer(Discovery, "off"));
    NoLayersEither([Layer(Discovery, v)]);
    NoLayersEither([Layer(Discovery, "on")]);
    NoLayersEither([Layer(Discovery, "off")]);
  }

  lemma NoLayersEither(l: seq<Layer>)
    ensures l + [] + [] == l && [] + l + [] == l && [] + [] + l == l
  {
  }

  lemma WordsOnOff()
    ensures ParseBool("on") == Some(true) && ParseBool("off") == Some(false)
  {
    BoolWords("on");
    BoolWords("off");
    assert Lower("on") == "on" && Lower("off") == "off";
  }

  lemma DiscoveryLayers(v: string, source: string)
    ensures ConfLayers([]) == [] && FlagLayers([]) == Ok(Flags([], false)) && EnvLayers(DESCS, map[]) == []
    ensures ConfLayers([Pair("discovery", v, source)]) == [Layer(Discovery, v)]
    ensures EnvLayers(DESCS, map["HCIBRIDGE_DISCOVERY" := v]) == [Layer(Discovery, v)]
    ensures ParseBool(v).Some? ==> FlagLayers(["--discovery", v]) == Ok(Flags([Layer(Discovery, v)], false))
    ensures FlagLayers(["--discovery"]) == Ok(Flags([Layer(Discovery, "on")], false))
    ensures FlagLayers(["--no-discovery"]) == Ok(Flags([Layer(Discovery, "off")], false))
  {
    hide DESCS;
    DiscoveryRow();
    NoLayers();
    KeyFound(0, 0);
    EnvOne(0, v);
    FlagFound(0, 0);
    hide DESCS, FindKey, FindFlag;
    ConfLayersSnoc([], Pair("discovery", v, source));
    DiscoveryFlags(v);
  }

  lemma DiscoveryFlags(v: string)
    requires DescByFlag("--discovery").Some? && DescByFlag("--discovery").value.field == Discovery
    requires DescByFlag("--discovery").value.kind == Boolean
    ensures ParseBool(v).Some? ==> FlagLayers(["--discovery", v]) == Ok(Flags([Layer(Discovery, v)], false))
    ensures FlagLayers(["--discovery"]) == Ok(Flags([Layer(Discovery, "on")], false))
    ensures FlagLayers(["--no-discovery"]) == Ok(Flags([Layer(Discovery, "off")], false))
  {
    hide DescByFlag, ParseBool;
    var a, b, c := ["--discovery", v], ["--discovery"], ["--no-discovery"];
    assert a[2..] == [] && b[1..] == [] && c[1..] == [];
    var on, off, val := [Layer(Discovery, "on")], [Layer(Discovery, "off")], [Layer(Discovery, v)];
    assert on + [] == on && off + [] == off && val + [] == val;
    assert FlagLayers([]) == Ok(Flags([], false));
    assert ParseBool(v).Some? ==> FlagLayers(a) == Prepend(val, false, FlagLayers([]));
    assert FlagLayers(b) == Prepend(on, false, FlagLayers([]));
    assert FlagLayers(c) == Prepend(off, false, FlagLayers([]));
  }

  /** --once, which exists as a flag only. */
  lemma OnceSetting()
    ensures Resolved([], map[], ["--once"]) == Ok(DEFAULTS.(once := true))
  {
    NoLayers();
    var a := ["--once"];
    assert a[1..] == [];
    assert FlagLayers(a) == Prepend([], true, FlagLayers([]));
    var none: seq<Layer> := [];
    assert none + none == none && none + none + none == none;
    hide ConfLayers, EnvLayers, FlagLayers, DESCS, Declared;
    DeclaredNothing(DEFAULTS.(once := true));
  }

  // ------------------------------------------------------------------
  // Errors of the command line
  // ------------------------------------------------------------------

  const VALUE_FLAGS: set<string> := {
    "--bind", "--subnet", "--discovery-port", "--port", "--vhci", "--reconnect-ms", "--client", "--allow", "--deny", "--psk"}

  lemma {:induction false} NotFound(a: string, from: nat)
    requires FindFlag(a, from).None?
    ensures forall j :: from <= j < |DESCS| ==> DESCS[j].flag != a
    decreases |DESCS| - from
  {
    hide DESCS;
    if from < |DESCS| {
      NotFound(a, from + 1);
    }
  }

  /** Which flags the table knows, and which of them take a value. */
  lemma KnownFlags(a: string)
    ensures DescByFlag(a).Some? <==> a == "--discovery" || a in VALUE_FLAGS
    ensures DescByFlag(a).Some? ==> (DescByFlag(a).value.kind == Boolean <==> a == "--discovery")
    ensures a == "--discovery" ==> DescByFlag(a).value.field == Discovery
  {
    hide DESCS, FlagAt, VALUE_FLAGS, FindFlag;
    DiscoveryRow();
    if DescByFlag(a).Some? {
      var j :| 0 <= j < |DESCS| && DESCS[j] == DescByFlag(a).value;
      FlagIsAt(j);
      FlagAtIsKnown(j);
      if j > 0 {
        ValueFlagAt(a);
      } else {
        FlagFound(0, 0);
      }
    } else {
      NotFound(a, 0);
      if a in VALUE_FLAGS {
        ValueFlagAt(a);
        var j :| 0 < j < 11 && FlagAt(j) == a;
        FlagIsAt(j);
      }
    }
  }

  /** The flags of the table, by position. */
  function FlagAt(j: nat): string {
    match j
    case 0 => "--discovery"
    case 1 => "--bind"
    case 2 => "--subnet"
    case 3 => "--discovery-port"
    case 4 => "--port"
    case 5 => "--vhci"
    case 6 => "--reconnect-ms"
    case 7 => "--client"
    case 8 => "--allow"
    case 9 => "--deny"
    case _ => "--psk"
  }

  lemma FlagIsAt(j: nat)
    requires j < 11
    ensures |DESCS| == 11 && DESCS[j].flag == FlagAt(j) && (DESCS[j].kind == Boolean <==> j == 0)
  {
    hide DESCS;
    DiscoveryRow(); BindRow(); SubnetRow(); DiscoveryPortRow(); PortRow(); VhciRow();
    ReconnectMsRow(); ClientsRow(); AllowRow(); DenyRow(); PskRow();
  }

  lemma FlagAtIsKnown(j: nat)
    requires j < 11
    ensures if j == 0 then FlagAt(j) == "--discovery" else FlagAt(j) in VALUE_FLAGS
  {
  }

  lemma ValueFlagAt(a: string)
    requires a in VALUE_FLAGS
    ensures exists j :: 0 < j < 11 && FlagAt(j) == a
    ensures |a| >= 2 && a[..2] == "--" && a != "--once" && a != "--host" && a != "--no-discovery" && a != "--discovery"
  {
    assert FlagAt(1) == "--bind" && FlagAt(2) == "--subnet" && FlagAt(3) == "--discovery-port" && FlagAt(4) == "--port";
    assert FlagAt(5) == "--vhci" && FlagAt(6) == "--reconnect-ms" && FlagAt(7) == "--client" && FlagAt(8) == "--allow";
    assert FlagAt(9) == "--deny" && FlagAt(10) == "--psk";
    assert a[2] != 'o' && a[2] != 'h' && a[2] != 'n';
  }

  /** An argument on its own: what it sets, that its value is missing, or that there is no such argument. */
  lemma LoneArgument(a: string)
    ensures FlagLayers([a]) ==
      if a == "--once" then Ok(Flags([], true))
      else if a == "--no-discovery" then Ok(Flags([Layer(Discovery, "off")], false))
      else if a == "--discovery" then Ok(Flags([Layer(Discovery, "on")], false))
      else if a == "--host" || a in VALUE_FLAGS then Err(MissingValue)
      else Err(BadArgument)
  {
    KnownFlags(a);
    hide DescByFlag, DESCS;
    LoneOption(a);
    var args := [a];
    assert args[1..] == [];
    assert FlagLayers([]) == Ok(Flags([], false));
    var none: seq<Layer>, off, on := [], [Layer(Discovery, "off")], [Layer(Discovery, "on")];
    assert none + [] == none && off + [] == off && on + [] == on;
    hide FirstOption, VALUE_FLAGS;
    var first := FirstOption(args);
    assert FlagLayers(args) ==
      if first.Err? then Err(first.error) else Prepend(first.value.layers, first.value.once, FlagLayers(args[first.value.width..]));
  }

  lemma LoneOption(a: string)
    requires DescByFlag(a).Some? <==> a == "--discovery" || a in VALUE_FLAGS
    requires DescByFlag(a).Some? ==> (DescByFlag(a).value.kind == Boolean <==> a == "--discovery")
    requires a == "--discovery" ==> DescByFlag(a).value.field == Discovery
    ensures FirstOption([a]) ==
      if a == "--once" then Ok(ParsedOption([], true, 1))
      else if a == "--no-discovery" then Ok(ParsedOption([Layer(Discovery, "off")], false, 1))
      else if a == "--discovery" then Ok(ParsedOption([Layer(Discovery, "on")], false, 1))
      else if a == "--host" || a in VALUE_FLAGS then Err(MissingValue)
      else Err(BadArgument)
  {
    if a in VALUE_FLAGS {
      ValueFlagAt(a);
    }
    hide DescByFlag, DESCS, VALUE_FLAGS;
    assert "--discovery"[..2] == "--" && "--discovery"[2] == 'd' && "--once"[2] == 'o' && "--host"[2] == 'h';
  }
}
