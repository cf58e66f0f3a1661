/** From a datagram to an attached board: the acceptance pipeline of the manager loop (host/manager.zig), with the announce
    signature of common/auth.zig. `tag` stands for the first 16 bytes of the MAC of a text under a key. */
module Admission {
  import opened Bytes
  import opened Text
  import opened Config
  import opened Settings
  import opened KeyFile
  import Discovery
  import MacLayout

  type Ip = (byte, byte, byte, byte)

  type Tagger = (Key, string) -> seq<byte>

  datatype Options = Options(allow: seq<string>, deny: seq<string>, pinned: seq<Ip>)

  /** A board the manager goes on to claim and connect to. */
  datatype Attach = Attach(bdaddr: string, ip: Ip, port: nat, name: string, psk: Key)

  predicate Listed(list: seq<string>, bdaddr: string) {
    exists i :: 0 <= i < |list| && EqualIgnoreCase(list[i], bdaddr)
  }

  predicate Permits(opts: Options, bdaddr: string) {
    !Listed(opts.deny, bdaddr) && (opts.allow == [] || Listed(opts.allow, bdaddr))
  }

  /** The text a board signs: it names the board's own address. */
  function SignedText(bdaddr: string, port: nat, name: string, ip: Ip): string {
    MacLayout.AnnounceText(bdaddr, port, name, ip)
  }

  predicate Verifies(tag: Tagger, psk: Key, m: Discovery.Message, ip: Ip)
    requires m.Announce?
  {
    m.sig == Hex(tag(psk, SignedText(m.bdaddr, m.port, m.name, ip)))
  }

  /** A second look at the configuration, when it has changed, may hold a key that fits. */
  predicate Verified(tag: Tagger, psk: Key, reloaded: Option<seq<string>>, m: Discovery.Message, ip: Ip)
    requires m.Announce?
  {
    || Verifies(tag, psk, m, ip)
    || (reloaded.Some? && var newer := Lookup(reloaded.value, m.bdaddr); newer.Some? && Verifies(tag, newer.value, m, ip))
  }

  /** What the loop does with one datagram. `keys` are the entries after the first look at the configuration. */
  function Admit(tag: Tagger, within: Ip -> bool, opts: Options, keys: seq<string>, reloaded: Option<seq<string>>,
                 data: string, ip: Ip): Option<Attach>
  {
    var parsed := Discovery.Parse(data);
    if parsed.Err? || parsed.value.Probe? then None
    else
      var m := parsed.value;
      var psk := Lookup(keys, m.bdaddr);
      if !Permits(opts, m.bdaddr) || ip in opts.pinned || psk.None? then None
      else if !Verified(tag, psk.value, reloaded, m, ip) || !within(ip) then None
      else Some(Attach(m.bdaddr, ip, m.port, m.name, psk.value))
  }

  /** A line of the announce grammar that gets this board in: its signature is right for the key that is held, or for the
      one a second look finds. */
  ghost predicate LetsIn(tag: Tagger, reloaded: Option<seq<string>>, data: string, a: Attach, sig: string) {
    var m := Discovery.Announce(a.bdaddr, a.port, a.name, sig);
    Discovery.InGrammar(data, m) && Verified(tag, a.psk, reloaded, m, a.ip)
  }

  /** Exactly which datagrams attach which board: the line is in the grammar with a signature that fits, the board is on no
      deny list and on the allow list if there is one, in any letter case, a key for it is configured, and the source is
      neither pinned nor outside the subnet. */
  lemma AdmitIff(tag: Tagger, within: Ip -> bool, opts: Options, keys: seq<string>,
                 reloaded: Option<seq<string>>, data: string, ip: Ip, a: Attach)
    ensures Admit(tag, within, opts, keys, reloaded, data, ip) == Some(a) <==>
      && (exists sig :: LetsIn(tag, reloaded, data, a, sig))
      && (forall i :: 0 <= i < |opts.deny| ==> Lower(opts.deny[i]) != Lower(a.bdaddr))
      && (opts.allow == [] || exists i :: 0 <= i < |opts.allow| && Lower(opts.allow[i]) == Lower(a.bdaddr))
      && Lookup(keys, a.bdaddr) == Some(a.psk) && a.ip == ip && ip !in opts.pinned && within(ip)
  {
    hide Discovery.Parse, Discovery.InGrammar, Lookup, Verifies, Lower;
    var parsed := Discovery.Parse(data);
    if Admit(tag, within, opts, keys, reloaded, data, ip) == Some(a) {
      Discovery.ParseIffGrammar(data, parsed.value);
      assert LetsIn(tag, reloaded, data, a, parsed.value.sig);
    }
    if sig :| LetsIn(tag, reloaded, data, a, sig) {
      Discovery.ParseIffGrammar(data, Discovery.Announce(a.bdaddr, a.port, a.name, sig));
    }
  }

  // ------------------------------------------------------------------
  // Only what was signed
  // ------------------------------------------------------------------

  /** An announce that was signed once, for one address, port, name and source, admits nothing else: not from another
      machine, not under another name or port, whatever the rest of the datagram says. */
  lemma ReplayAdmitsNothingElse(tag: Tagger, within: Ip -> bool, opts: Options, keys: seq<string>,
                                reloaded: Option<seq<string>>, data: string, ip: Ip,
                                b: string, p: nat, n: string, home: Ip)
    requires Free(b, '\t') && Free(n, '\t')
    requires Discovery.Parse(data).Ok? && Discovery.Parse(data).value.Announce?
    requires forall k, text :: Hex(tag(k, text)) == Discovery.Parse(data).value.sig ==> text == SignedText(b, p, n, home)
    ensures
      var a := Admit(tag, within, opts, keys, reloaded, data, ip);
      a.Some? ==> ip == home && a.value.bdaddr == b && a.value.port == p && a.value.name == n && a.value.ip == home
  {
    hide Discovery.Parse, Lookup, Permits, MacLayout.AnnounceText, Hex;
    if Admit(tag, within, opts, keys, reloaded, data, ip).Some? {
      var m := Discovery.Parse(data).value;
      Discovery.ParseKeepsTabsOut(data);
      MacLayout.AnnounceInjective(MacLayout.Announce(m.bdaddr, m.port, m.name, ip), MacLayout.Announce(b, p, n, home));
    }
  }

  // ------------------------------------------------------------------
  // From claim to attach
  // ------------------------------------------------------------------

  /** The datagram a claimed board sends from its address. */
  function BoardDatagram(tag: Tagger, psk: Key, mac: seq<byte>, port: nat, name: string, ip: Ip): string
    requires |mac| == 6
  {
    var b := Discovery.BdaddrText(mac);
    Discovery.AnnounceText(b, port, name, Hex(tag(psk, SignedText(b, port, name, ip))))
  }

  /** A board whose key the manager holds is admitted with everything it announced. */
  lemma HonestBoardAdmitted(tag: Tagger, within: Ip -> bool, opts: Options, keys: seq<string>,
                            reloaded: Option<seq<string>>, psk: Key, mac: seq<byte>, port: nat, name: string, ip: Ip)
    requires |mac| == 6 && port <= 0xffff && name != "" && Free(name, '\t')
    requires Permits(opts, Discovery.BdaddrText(mac)) && ip !in opts.pinned && within(ip)
    requires Lookup(keys, Discovery.BdaddrText(mac)) == Some(psk)
    ensures Admit(tag, within, opts, keys, reloaded, BoardDatagram(tag, psk, mac, port, name, ip), ip) ==
            Some(Attach(Discovery.BdaddrText(mac), ip, port, name, psk))
  {
    hide Discovery.Parse, Discovery.AnnounceText, Discovery.BdaddrText, Lookup, Permits, SignedText, Hex;
    Discovery.BoardAnnounceParses(mac, port, name, tag(psk, SignedText(Discovery.BdaddrText(mac), port, name, ip)));
  }

  lemma HexInjective(a: seq<byte>, b: seq<byte>)
    requires Hex(a) == Hex(b)
    ensures a == b
  {
    HexRoundTrip(a);
    HexRoundTrip(b);
  }

  /** That a session starts with the key its announce was checked with is not true of the loop: when a board has been
      claimed anew and only the second look at the configuration finds its new key, it is admitted with the old one. */
  lemma AdmittedWithStaleKey(tag: Tagger, within: Ip -> bool, opts: Options, keys: seq<string>, reloaded: seq<string>,
                             stale: Key, newer: Key, mac: seq<byte>, port: nat, name: string, ip: Ip)
    requires |mac| == 6 && port <= 0xffff && name != "" && Free(name, '\t')
    requires Permits(opts, Discovery.BdaddrText(mac)) && ip !in opts.pinned && within(ip)
    requires Lookup(keys, Discovery.BdaddrText(mac)) == Some(stale)
    requires Lookup(reloaded, Discovery.BdaddrText(mac)) == Some(newer)
    ensures
      var b := Discovery.BdaddrText(mac);
      var text := SignedText(b, port, name, ip);
      && Admit(tag, within, opts, keys, Some(reloaded), BoardDatagram(tag, newer, mac, port, name, ip), ip) ==
         Some(Attach(b, ip, port, name, stale))
      && (Verifies(tag, stale, Discovery.Announce(b, port, name, Hex(tag(newer, text))), ip) <==>
          tag(stale, text) == tag(newer, text))
  {
    hide Discovery.Parse, Discovery.AnnounceText, Discovery.BdaddrText, Lookup, Permits, SignedText, Hex;
    var text := SignedText(Discovery.BdaddrText(mac), port, name, ip);
    Discovery.BoardAnnounceParses(mac, port, name, tag(newer, text));
    if Hex(tag(stale, text)) == Hex(tag(newer, text)) {
      HexInjective(tag(stale, text), tag(newer, text));
    }
  }

  /** The lists, the pinned hosts and the subnet let this board through. */
  predicate Welcome(within: Ip -> bool, opts: Options, b: string, ip: Ip) {
    Permits(opts, b) && ip !in opts.pinned && within(ip)
  }

  /** Exactly what becomes of a board's datagram, signed with its key k, where tags of different keys differ: it is admitted
      with the configured key p if and only if p is k or a second look at the configuration finds k. So it is admitted with
      k exactly when k is the key configured at the first look, whatever the second one finds. */
  lemma BoardAdmittedIff(tag: Tagger, within: Ip -> bool, opts: Options, keys: seq<string>,
                         reloaded: Option<seq<string>>, k: Key, mac: seq<byte>, port: nat, name: string, ip: Ip, p: Key)
    requires |mac| == 6 && port <= 0xffff && name != "" && Free(name, '\t')
    requires forall other: Key | other != k ::
      var text := SignedText(Discovery.BdaddrText(mac), port, name, ip); tag(other, text) != tag(k, text)
    ensures
      var b := Discovery.BdaddrText(mac);
      var r := Admit(tag, within, opts, keys, reloaded, BoardDatagram(tag, k, mac, port, name, ip), ip);
      && (r == Some(Attach(b, ip, port, name, p)) <==>
            Welcome(within, opts, b, ip) && Lookup(keys, b) == Some(p) &&
            (p == k || (reloaded.Some? && Lookup(reloaded.value, b) == Some(k))))
      && (r.Some? ==> r == Some(Attach(b, ip, port, name, r.value.psk)))
      && (r.Some? ==> (r.value.psk == k <==> Lookup(keys, b) == Some(k)))
  {
    hide Discovery.Parse, Discovery.AnnounceText, Discovery.BdaddrText, Lookup, Permits, SignedText, Hex;
    var b := Discovery.BdaddrText(mac);
    var text := SignedText(b, port, name, ip);
    Discovery.BoardAnnounceParses(mac, port, name, tag(k, text));
    forall other: Key
      ensures Hex(tag(other, text)) == Hex(tag(k, text)) <==> other == k
    {
      if Hex(tag(other, text)) == Hex(tag(k, text)) {
        HexInjective(tag(other, text), tag(k, text));
      }
    }
  }

  predicate Plain(c: char) {
    c == ':' || HexValue(c).Some?
  }

  lemma {:induction false} JoinedPlain(parts: seq<string>)
    requires parts != [] && forall i, j :: 0 <= i < |parts| && 0 <= j < |parts[i]| ==> Plain(parts[i][j])
    ensures forall j :: 0 <= j < |Join(parts, ':')| ==> Plain(Join(parts, ':')[j])
  {
    if |parts| > 1 {
      JoinedPlain(parts[1..]);
    }
  }

  /** The firmware's address text holds no separator of the key file. */
  lemma BdaddrStorable(mac: seq<byte>)
    requires |mac| == 6
    ensures Storable(Discovery.BdaddrText(mac))
  {
    var parts := [Hex([mac[0]]), Hex([mac[1]]), Hex([mac[2]]), Hex([mac[3]]), Hex([mac[4]]), Hex([mac[5]])];
    hide Hex, Join;
    HexDigitsOnly([mac[0]]); HexDigitsOnly([mac[1]]); HexDigitsOnly([mac[2]]);
    HexDigitsOnly([mac[3]]); HexDigitsOnly([mac[4]]); HexDigitsOnly([mac[5]]);
    JoinedPlain(parts);
    PlainStorable(Join(parts, ':'));
  }

  lemma PlainStorable(b: string)
    requires forall j :: 0 <= j < |b| ==> Plain(b[j])
    ensures Storable(b)
  {
  }

  /** Pairing as a whole: after `claim` has saved a board's key in the configuration, and if nothing later names another
      key for that board, the board's next announce from its own address is admitted with that key. */
  lemma ClaimThenAttach(tag: Tagger, within: Ip -> bool, opts: Options, reloaded: Option<seq<string>>,
                        before: seq<Pair>, later: seq<Pair>, source: string, env: map<string, string>,
                        args: seq<string>, psk: Key, mac: seq<byte>, port: nat, name: string, ip: Ip)
    requires |mac| == 6 && port <= 0xffff && name != "" && Free(name, '\t')
    requires Permits(opts, Discovery.BdaddrText(mac)) && ip !in opts.pinned && within(ip)
    ensures NothingLater(later, env, args, Discovery.BdaddrText(mac)) ==>
      var b := Discovery.BdaddrText(mac);
      var s := Resolved(before + ReadText(ClaimLine(b, psk), source) + later, env, args);
      && s.Ok?
      && Admit(tag, within, opts, s.value.psk, reloaded, BoardDatagram(tag, psk, mac, port, name, ip), ip) ==
         Some(Attach(b, ip, port, name, psk))
  {
    hide Admit, Resolved, Lookup, NothingLater, Permits, BoardDatagram, Storable, ReadText;
    var b := Discovery.BdaddrText(mac);
    BdaddrStorable(mac);
    KeyFileRoundTrip(before, b, psk, source, later, env, args, b);
    if NothingLater(later, env, args, b) {
      var s := Resolved(before + ReadText(ClaimLine(b, psk), source) + later, env, args);
      HonestBoardAdmitted(tag, within, opts, s.value.psk, reloaded, psk, mac, port, name, ip);
    }
  }
}
