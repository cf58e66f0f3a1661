/** `--host x` against `--client x --no-discovery` (host/settings.zig). */
module HostSugar {
  import opened Bytes
  import opened Text
  import opened Config
  import opened Settings
  import opened Resolving
  import opened Schema

  lemma ClientFlag()
    ensures DescByFlag("--client") == Some(Desc(Clients, "--client", "HCIBRIDGE_CLIENTS", "client", List))
  {
    hide DESCS;
    ClientsRow();
    FlagFound(7, 0);
  }

  lemma DiscoveryFlag()
    ensures DescByFlag("--discovery") == Some(Desc(Discovery, "--discovery", "HCIBRIDGE_DISCOVERY", "discovery", Boolean))
  {
  }

  /** Words too long for ParseBool, such as every flag. */
  lemma LongIsNoBool(v: string)
    requires |v| > 5
    ensures ParseBool(v).None?
  {
  }

  /** An option does not see past the second argument, and past the first only a boolean. */
  lemma FirstOptionConcat(pre: seq<string>, post: seq<string>)
    requires pre != [] && (|pre| >= 2 || (post != [] && ParseBool(post[0]).None?))
    requires FirstOption(pre) != Err(MissingValue)
    ensures FirstOption(pre + post) == FirstOption(pre)
  {
    hide ParseBool, DescByFlag;
    assert (pre + post)[0] == pre[0];
    if |pre| >= 2 {
      assert (pre + post)[1] == pre[1];
    } else {
      assert (pre + post)[1] == post[0];
    }
  }

  /** Complete options first, then the rest. */
  lemma {:induction false} FlagLayersConcat(pre: seq<string>, post: seq<string>)
    requires FlagLayers(pre) != Err(MissingValue)
    requires post != [] && ParseBool(post[0]).None?
    ensures FlagLayers(pre + post) ==
            var r := FlagLayers(pre);
            if r.Err? then Err(r.error) else Prepend(r.value.layers, r.value.once, FlagLayers(post))
    decreases |pre|
  {
    hide FirstOption, ParseBool, Prepend;
    if pre == [] {
      assert pre + post == post;
      PrependNothing(FlagLayers(post));
    } else {
      FirstOptionConcat(pre, post);
      if FirstOption(pre).Ok? {
        var o := FirstOption(pre).value;
        assert (pre + post)[o.width..] == pre[o.width..] + post;
        PrependErrors(o.layers, o.once, FlagLayers(pre[o.width..]));
        FlagLayersConcat(pre[o.width..], post);
        if FlagLayers(pre[o.width..]).Ok? {
          PrependAfter(o.layers, o.once, FlagLayers(pre[o.width..]), FlagLayers(post));
        } else {
          PrependErrors(o.layers, o.once, FlagLayers(pre[o.width..] + post));
        }
      }
    }
  }

  lemma PrependErrors(layers: seq<Layer>, once: bool, r: Result<Flags, Error>)
    ensures Prepend(layers, once, r).Err? <==> r.Err?
    ensures r.Err? ==> Prepend(layers, once, r) == r
  {
  }

  lemma PrependAfter(layers: seq<Layer>, once: bool, r: Result<Flags, Error>, s: Result<Flags, Error>)
    requires r.Ok?
    ensures var q := Prepend(layers, once, r);
      q.Ok? && Prepend(layers, once, Prepend(r.value.layers, r.value.once, s)) == Prepend(q.value.layers, q.value.once, s)
  {
    PrependTwice(layers, once, r.value.layers, r.value.once, s);
  }

  /** At the start of an option the two spellings give the same layers. */
  lemma SugarHere(x: string, post: seq<string>)
    ensures FlagLayers(["--host", x] + post) == FlagLayers(["--client", x, "--no-discovery"] + post)
  {
    hide ParseBool, DescByFlag;
    ClientFlag();
    var a, b := ["--host", x] + post, ["--client", x, "--no-discovery"] + post;
    var c := ["--no-discovery"] + post;
    assert a[2..] == post && b[2..] == c && c[1..] == post;
    var l, m := [Layer(Clients, x)], [Layer(Discovery, "off")];
    assert l + m == [Layer(Clients, x), Layer(Discovery, "off")];
    assert FlagLayers(c) == Prepend(m, false, FlagLayers(post));
    assert FlagLayers(b) == Prepend(l, false, FlagLayers(c));
    PrependTwice(l, false, m, false, FlagLayers(post));
  }

  /** An accepted command line whose last word on discovery is v. */
  predicate EndsWith(r: Result<Flags, Error>, v: string) {
    r.Ok? && r.value.layers != [] && r.value.layers[|r.value.layers| - 1] == Layer(Discovery, v)
  }

  lemma PrependEndsWith(layers: seq<Layer>, once: bool, r: Result<Flags, Error>, v: string)
    requires EndsWith(r, v)
    ensures EndsWith(Prepend(layers, once, r), v)
  {
  }

  lemma TrapTails()
    ensures EndsWith(FlagLayers(["--discovery"]), "on")
    ensures EndsWith(FlagLayers(["--discovery", "--no-discovery"]), "off")
  {
    hide ParseBool, DescByFlag;
    DiscoveryFlag();
    LongIsNoBool("--no-discovery");
    var a, b := ["--discovery"], ["--discovery", "--no-discovery"];
    assert a[1..] == [] && b[1..] == ["--no-discovery"] && b[1..][1..] == [];
    assert FlagLayers([]) == Ok(Flags([], false));
    assert FlagLayers(b[1..]) == Prepend([Layer(Discovery, "off")], false, FlagLayers([]));
    assert FlagLayers(b) == Prepend([Layer(Discovery, "on")], false, FlagLayers(b[1..]));
    assert FlagLayers(a) == Prepend([Layer(Discovery, "on")], false, FlagLayers([]));
  }

  /** A lone option that misses its value takes whatever comes next. */
  lemma TakesNext(f: string, rest: seq<string>)
    requires FirstOption([f]) == Err(MissingValue) && rest != []
    ensures FirstOption([f] + rest).Ok? && FirstOption([f] + rest).value.width == 2
  {
    hide ParseBool, DescByFlag;
  }

  /** After an option that still waits for its value, the rest is read one argument later. */
  lemma {:induction false} ReadsOneLater(pre: seq<string>, next: string, rest: seq<string>, v: string)
    requires FlagLayers(pre) == Err(MissingValue) && EndsWith(FlagLayers(rest), v)
    ensures EndsWith(FlagLayers(pre + [next] + rest), v)
    decreases |pre|
  {
    hide FirstOption, Prepend, ParseBool;
    var all := pre + [next] + rest;
    var first := FirstOption(pre);
    if first.Err? {
      MissesAlone(pre);
      assert all == [pre[0]] + ([next] + rest);
      TakesNext(pre[0], [next] + rest);
      var o := FirstOption(all).value;
      assert all[2..] == rest;
      PrependEndsWith(o.layers, o.once, FlagLayers(rest), v);
    } else {
      var o := first.value;
      PrependErrors(o.layers, o.once, FlagLayers(pre[o.width..]));
      ReadsOneLater(pre[o.width..], next, rest, v);
      assert pre[o.width..] != [];
      assert |pre| >= 2;
      assert all == pre + ([next] + rest);
      FirstOptionConcat(pre, [next] + rest);
      assert all[o.width..] == pre[o.width..] + [next] + rest;
      PrependEndsWith(o.layers, o.once, FlagLayers(all[o.width..]), v);
    }
  }

  lemma MissesAlone(pre: seq<string>)
    requires pre != [] && FirstOption(pre) == Err(MissingValue)
    ensures pre == [pre[0]]
  {
    hide ParseBool, DescByFlag;
  }

  /** The last word on discovery decides it. */
  lemma LastWord(pairs: seq<Pair>, env: map<string, string>, args: seq<string>, v: string)
    requires EndsWith(FlagLayers(args), v) && ParseBool(v).Some?
    ensures Resolved(pairs, env, args).Ok? && Resolved(pairs, env, args).value.discovery == ParseBool(v).value
  {
    hide FlagLayers, ConfLayers, EnvLayers, ParseBool, Declared;
    var f := FlagLayers(args).value;
    var base := DEFAULTS.(once := f.once);
    var n := |f.layers| - 1;
    var all := ConfLayers(pairs) + EnvLayers(DESCS, env) + f.layers;
    var before := ConfLayers(pairs) + EnvLayers(DESCS, env) + f.layers[..n];
    assert all == before + [Layer(Discovery, v)];
    LaterOverEarlier(base, before, [Layer(Discovery, v)]);
    DeclaredOne(Declared(base, before), Layer(Discovery, v));
  }

  ghost predicate SugarHolds(pairs: seq<Pair>, env: map<string, string>, pre: seq<string>, x: string, post: seq<string>) {
    Resolved(pairs, env, pre + ["--host", x] + post) ==
    Resolved(pairs, env, pre + ["--client", x, "--no-discovery"] + post)
  }

  lemma SugarAtBoundary(pairs: seq<Pair>, env: map<string, string>, pre: seq<string>, x: string, post: seq<string>)
    requires FlagLayers(pre) != Err(MissingValue)
    ensures SugarHolds(pairs, env, pre, x, post)
  {
    hide FlagLayers, ConfLayers, EnvLayers, ParseBool, Declared;
    var a, b := ["--host", x] + post, ["--client", x, "--no-discovery"] + post;
    Assoc(pre, ["--host", x], post);
    Assoc(pre, ["--client", x, "--no-discovery"], post);
    LongIsNoBool(a[0]);
    LongIsNoBool(b[0]);
    FlagLayersConcat(pre, a);
    FlagLayersConcat(pre, b);
    SugarHere(x, post);
  }

  lemma SugarMidOption(pairs: seq<Pair>, env: map<string, string>, pre: seq<string>)
    requires FlagLayers(pre) == Err(MissingValue)
    ensures !SugarHolds(pairs, env, pre, "--discovery", [])
  {
    hide FlagLayers, Resolved, ParseBool;
    TrapTails();
    WordsOnOff();
    var a, b := pre + ["--host"] + ["--discovery"], pre + ["--client"] + ["--discovery", "--no-discovery"];
    assert pre + ["--host", "--discovery"] + [] == a;
    assert pre + ["--client", "--discovery", "--no-discovery"] + [] == b;
    ReadsOneLater(pre, "--host", ["--discovery"], "on");
    LastWord(pairs, env, a, "on");
    ReadsOneLater(pre, "--client", ["--discovery", "--no-discovery"], "off");
    LastWord(pairs, env, b, "off");
  }

  /** The sugar law holds at a place in the arguments, whatever the board and the rest of the line, exactly when the
      arguments before it do not end in an option that still waits for its value. */
  lemma HostSugarIff(pairs: seq<Pair>, env: map<string, string>, pre: seq<string>)
    ensures (forall x, post :: SugarHolds(pairs, env, pre, x, post)) <==> FlagLayers(pre) != Err(MissingValue)
  {
    hide SugarHolds, FlagLayers;
    if FlagLayers(pre) != Err(MissingValue) {
      forall x, post
        ensures SugarHolds(pairs, env, pre, x, post)
      {
        SugarAtBoundary(pairs, env, pre, x, post);
      }
    } else {
      SugarMidOption(pairs, env, pre);
    }
  }
}
