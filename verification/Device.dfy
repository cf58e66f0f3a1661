/** The board's key, its HTTP proofs and its life cycle across reboots (firmware/main/auth.c, ota.c). */
module Device {
  import opened Bytes
  import opened Text
  import opened MacLayout

  type Key = seq<byte>

  const COUNTER_LIMIT: nat := 0x1_0000_0000
  const BOOT_RANDOM_LEN: nat := 16

  /** SHA-256 of the empty string. */
  const EMPTY_SHA: seq<byte> := [
    0xe3, 0xb0, 0xc4, 0x42, 0x98, 0xfc, 0x1c, 0x14, 0x9a, 0xfb, 0xf4, 0xc8, 0x99, 0x6f, 0xb9, 0x24,
    0x27, 0xae, 0x41, 0xe4, 0x64, 0x9b, 0x93, 0x4c, 0xa4, 0x95, 0x99, 0x1b, 0x78, 0x52, 0xb8, 0x55]

  const NO_KEY: Key := [
    0, 0, 0, 0, 0, 0, 0, 0, 0, 0, 0, 0, 0, 0, 0, 0, 0, 0, 0, 0, 0, 0, 0, 0, 0, 0, 0, 0, 0, 0, 0, 0]

  /** A MAC as presented in a header: made with some key over some bytes, or not a MAC at all. */
  datatype Proof = Tag(key: Key, msg: seq<byte>) | Garbage

  /** RAM (lost on reboot) and NVS (`stored`). `restarting` is the end of unclaim_post, which does not
      return to serving requests. */
  datatype Board = Board(
    psk: Key, claimed: bool, rand: seq<byte>, counter: nat, stored: Option<Key>, restarting: bool)

  predicate Sane(b: Board) {
    |b.rand| == BOOT_RANDOM_LEN && b.counter < COUNTER_LIMIT
  }

  function HttpNonce(b: Board): (n: seq<byte>)
    requires Sane(b)
    ensures |n| == HTTP_NONCE_LEN
  {
    b.rand + Be32(b.counter)
  }

  /** auth_init after a restart: everything in RAM is gone, the key comes from NVS. */
  function Boot(b: Board, rand: seq<byte>): Board {
    Board(if b.stored.Some? then b.stored.value else NO_KEY, b.stored.Some?, rand, 0, b.stored, false)
  }

  function Bump(b: Board): Board {
    b.(counter := (b.counter + 1) % COUNTER_LIMIT)
  }

  /** Where writing NVS can fail; only a commit persists. */
  datatype Nvs = OpenFails | WriteFails | CommitFails | Commits

  /** The key is in RAM before NVS is tried; the board is claimed only after the commit. */
  function Claim(b: Board, derived: Option<Key>, nvs: Nvs): Board {
    if b.claimed || derived.None? then b
    else if nvs.Commits? then b.(psk := derived.value, stored := derived, claimed := true)
    else b.(psk := derived.value)
  }

  function Unclaim(b: Board, nvs: Nvs): Board {
    if nvs.Commits? then b.(psk := NO_KEY, stored := None, claimed := false) else b
  }

  predicate AuthOk(b: Board, path: Path, digest: seq<byte>, auth: Proof)
    requires Sane(b) && |digest| == DIGEST_LEN
  {
    b.claimed && auth == Tag(b.psk, Layout(Auth(path, HttpNonce(b), digest)))
  }

  predicate PreOk(b: Board, path: Path, len: nat, pre: Proof)
    requires Sane(b) && len < 0x1_0000_0000
  {
    b.claimed && pre == Tag(b.psk, Layout(Pre(path, HttpNonce(b), len)))
  }

  /** Both proofs of a request without a body. */
  predicate BothOk(b: Board, path: Path, auth: Proof, pre: Proof)
    requires Sane(b)
  {
    PreOk(b, path, 0, pre) && AuthOk(b, path, EMPTY_SHA, auth)
  }

  // ------------------------------------------------------------------
  // Requests and reboots
  // ------------------------------------------------------------------

  /** How far an upload gets once its Pre proof has passed: the body does not arrive in flash, the image cannot be ended,
      the boot partition cannot be switched, or it is switched. The Auth proof is checked on a whole body only. */
  datatype Fate = Unreceived | Unended | Unswitched | Switched

  /** Ota.dfy has the upload handler itself. */
  datatype Event =
    | PowerCycle(rand: seq<byte>)
    | OtaRequest(len: nat, digest: seq<byte>, auth: Proof, pre: Proof, fate: Fate)
    | RebootRequest(auth: Proof, pre: Proof)
    | UnclaimRequest(auth: Proof, pre: Proof, nvs: Nvs)
    | ClaimRequest(derived: Option<Key>, nvs: Nvs)

  /** What was accepted: under which key, for what, and after how many others since boot. */
  datatype Grant = Grant(key: Key, path: Path, rand: seq<byte>, count: nat, auth: Proof, pre: Proof)

  /** `served` counts the accepted requests since boot, without wrapping. */
  datatype World = World(b: Board, served: nat, rands: set<seq<byte>>, grants: seq<Grant>)

  /** The Pre check, which every path makes first. */
  predicate PrePasses(b: Board, e: Event)
    requires Sane(b)
  {
    match e
    case OtaRequest(len, _, _, pre, _) => len < 0x1_0000_0000 && PreOk(b, Ota, len, pre)
    case RebootRequest(_, pre) => PreOk(b, Reboot, 0, pre)
    case UnclaimRequest(_, pre, _) => PreOk(b, MacLayout.Unclaim, 0, pre)
    case _ => false
  }

  /** The Auth check is reached and passes. */
  predicate AuthPasses(b: Board, e: Event)
    requires Sane(b)
  {
    && PrePasses(b, e)
    && match e
       case OtaRequest(_, digest, auth, _, fate) => !fate.Unreceived? && |digest| == DIGEST_LEN && AuthOk(b, Ota, digest, auth)
       case RebootRequest(auth, _) => AuthOk(b, Reboot, EMPTY_SHA, auth)
       case UnclaimRequest(auth, _, _) => AuthOk(b, MacLayout.Unclaim, EMPTY_SHA, auth)
       case _ => false
  }

  /** Nothing fails after the checks. */
  predicate CarriedOut(e: Event) {
    match e
    case OtaRequest(_, _, _, _, fate) => fate.Switched?
    case RebootRequest(_, _) => true
    case UnclaimRequest(_, _, nvs) => nvs.Commits?
    case _ => false
  }

  predicate Accepts(b: Board, e: Event)
    requires Sane(b)
  {
    AuthPasses(b, e) && CarriedOut(e)
  }

  function PathOf(e: Event): Path {
    if e.OtaRequest? then Ota else if e.RebootRequest? then Reboot else MacLayout.Unclaim
  }

  /** An accepted request: ota and reboot advance the counter, unclaim forgets the key. */
  function Serve(b: Board, e: Event): Board {
    if e.UnclaimRequest? then Unclaim(b, e.nvs).(restarting := true) else Bump(b)
  }

  /** What a request or a reboot does to the board. */
  function Handle(b: Board, e: Event): (b': Board)
    requires Sane(b)
    ensures Sane(b')
  {
    if e.PowerCycle? then if |e.rand| == BOOT_RANDOM_LEN then Boot(b, e.rand) else b
    else if b.restarting then b
    else if e.ClaimRequest? then Claim(b, e.derived, e.nvs)
    else if Accepts(b, e) then Serve(b, e)
    else b
  }

  function Step(w: World, e: Event): (w': World)
    requires Sane(w.b)
    ensures Sane(w'.b)
  {
    var b' := Handle(w.b, e);
    if e.PowerCycle? then
      if |e.rand| != BOOT_RANDOM_LEN then w else World(b', 0, w.rands + {e.rand}, w.grants)
    else if !w.b.restarting && Accepts(w.b, e) then
      World(b', w.served + 1, w.rands,
            w.grants + [Grant(w.b.psk, PathOf(e), w.b.rand, w.served, e.auth, e.pre)])
    else w.(b := b')
  }

  function Exec(w: World, run: seq<Event>): (w': World)
    requires Sane(w.b)
    ensures Sane(w'.b)
    decreases |run|
  {
    if run == [] then w else Exec(Step(w, run[0]), run[1..])
  }

  /** A board fresh from its first boot. */
  predicate Initial(w: World) {
    && Sane(w.b) && w.b.counter == 0 && !w.b.restarting && w.served == 0
    && w.rands == {w.b.rand} && w.grants == []
    && (w.b.claimed <==> w.b.stored.Some?) && (w.b.stored.Some? ==> w.b.psk == w.b.stored.value)
  }

  // ------------------------------------------------------------------
  // Key life cycle
  // ------------------------------------------------------------------

  /** A claimed board's RAM key is its stored key. */
  predicate KeyInStep(b: Board) {
    && (b.claimed ==> b.stored == Some(b.psk))
    && (!b.claimed ==> b.stored.None?)
  }

  lemma KeyStep(w: World, e: Event)
    requires Sane(w.b) && KeyInStep(w.b)
    ensures KeyInStep(Step(w, e).b)
  {
    hide Layout;
  }

  lemma {:induction false} KeyStaysInStep(w: World, run: seq<Event>)
    requires Sane(w.b) && KeyInStep(w.b)
    ensures KeyInStep(Exec(w, run).b)
    decreases |run|
  {
    hide Step, KeyInStep;
    if run != [] {
      KeyStep(w, run[0]);
      KeyStaysInStep(Step(w, run[0]), run[1..]);
    }
  }

  /** The event is an unclaim whose two proofs were made with the key `k` for the board's current nonce. */
  predicate ProvedUnclaim(w: World, e: Event, k: Key)
    requires Sane(w.b)
  {
    && e.UnclaimRequest?
    && e.auth == Tag(k, Layout(Auth(MacLayout.Unclaim, HttpNonce(w.b), EMPTY_SHA)))
    && e.pre == Tag(k, Layout(Pre(MacLayout.Unclaim, HttpNonce(w.b), 0)))
  }

  /** Across every run, reboots included, a key leaves the board only through an unclaim proved with it. */
  lemma {:induction false} KeyLeavesByUnclaim(w: World, run: seq<Event>, k: Key)
    requires Sane(w.b) && KeyInStep(w.b) && w.b.stored == Some(k)
    requires Exec(w, run).b.stored != Some(k)
    ensures exists i :: 0 <= i < |run| && ProvedUnclaim(Exec(w, run[..i]), run[i], k)
    decreases |run|
  {
    hide Layout;
    var e := run[0];
    if Step(w, e).b.stored == Some(k) {
      KeyStep(w, e);
      KeyLeavesByUnclaim(Step(w, e), run[1..], k);
      var i :| 0 <= i < |run[1..]| && ProvedUnclaim(Exec(Step(w, e), run[1..][..i]), run[1..][i], k);
      assert run[..i + 1][1..] == run[1..][..i];
      assert Exec(w, run[..i + 1]) == Exec(Step(w, e), run[1..][..i]);
      assert ProvedUnclaim(Exec(w, run[..i + 1]), run[i + 1], k);
    } else {
      assert run[..0] == [];
      assert ProvedUnclaim(Exec(w, run[..0]), run[0], k);
    }
  }

  /** A claim that goes through for the key `k`. */
  predicate ClaimsKey(w: World, e: Event, k: Key) {
    e == ClaimRequest(Some(k), Commits) && !w.b.claimed && !w.b.restarting
  }

  /** Across every run, reboots included, a key gets onto the board only by a claim that derived exactly it, on a board that
      had none. */
  lemma {:induction false} KeyComesByClaim(w: World, run: seq<Event>, k: Key)
    requires Sane(w.b) && w.b.stored != Some(k) && Exec(w, run).b.stored == Some(k)
    ensures exists i :: 0 <= i < |run| && ClaimsKey(Exec(w, run[..i]), run[i], k)
    decreases |run|
  {
    hide Layout;
    var e := run[0];
    if Step(w, e).b.stored == Some(k) {
      assert run[..0] == [];
      assert ClaimsKey(Exec(w, run[..0]), run[0], k);
    } else {
      KeyComesByClaim(Step(w, e), run[1..], k);
      var i :| 0 <= i < |run[1..]| && ClaimsKey(Exec(Step(w, e), run[1..][..i]), run[1..][i], k);
      assert run[..i + 1][1..] == run[1..][..i];
      assert Exec(w, run[..i + 1]) == Exec(Step(w, e), run[1..][..i]);
      assert ClaimsKey(Exec(w, run[..i + 1]), run[i + 1], k);
    }
  }

  predicate NoProvedUnclaim(w: World, run: seq<Event>, k: Key)
    requires Sane(w.b)
  {
    forall i :: 0 <= i < |run| ==> !ProvedUnclaim(Exec(w, run[..i]), run[i], k)
  }

  /** Conversely such a claim takes hold and stays: until an unclaim proved with k, through all requests, failures and
      reboots, k is the stored key and the key in RAM, and requests proved with it pass both checks. */
  lemma ClaimedKeyWorks(w: World, k: Key, run: seq<Event>, path: Path, digest: seq<byte>, len: nat,
                        mac: (Key, seq<byte>) -> seq<byte>)
    requires Sane(w.b) && KeyInStep(w.b) && ClaimsKey(w, ClaimRequest(Some(k), Commits), k)
    requires NoProvedUnclaim(Step(w, ClaimRequest(Some(k), Commits)), run, k)
    requires |digest| == DIGEST_LEN && len < 0x1_0000_0000 && forall msg :: |mac(k, msg)| == 32
    ensures
      var b := Exec(Step(w, ClaimRequest(Some(k), Commits)), run).b;
      var auth, pre := Layout(Auth(path, HttpNonce(b), digest)), Layout(Pre(path, HttpNonce(b), len));
      && b.stored == Some(k) && b.claimed && b.psk == k
      && AuthOk(b, path, digest, Tag(k, auth)) && HeaderOk(b, auth, Hex(mac(k, auth)), mac)
      && PreOk(b, path, len, Tag(k, pre)) && HeaderOk(b, pre, Hex(mac(k, pre)), mac)
  {
    var w1 := Step(w, ClaimRequest(Some(k), Commits));
    assert w1.b.stored == Some(k);
    KeyStep(w, ClaimRequest(Some(k), Commits));
    hide Layout, Step;
    KeyStaysInStep(w1, run);
    if Exec(w1, run).b.stored != Some(k) {
      KeyLeavesByUnclaim(w1, run, k);
    }
    HonestRequestAccepted(Exec(w1, run).b, path, digest, len, mac);
  }

  // ------------------------------------------------------------------
  // No proof is accepted twice
  // ------------------------------------------------------------------

  /** A grant carries the two proofs for the nonce of its boot and count. */
  ghost predicate GrantOk(g: Grant) {
    && |g.rand| == BOOT_RANDOM_LEN
    && (exists digest :: |digest| == DIGEST_LEN && AuthFor(g, digest))
    && (exists len: nat :: len < 0x1_0000_0000 && PreFor(g, len))
  }

  function GrantNonce(g: Grant): (n: seq<byte>)
    requires |g.rand| == BOOT_RANDOM_LEN
    ensures |n| == HTTP_NONCE_LEN
  {
    g.rand + Be32(g.count % COUNTER_LIMIT)
  }

  predicate AuthFor(g: Grant, digest: seq<byte>)
    requires |g.rand| == BOOT_RANDOM_LEN && |digest| == DIGEST_LEN
  {
    g.auth == Tag(g.key, Layout(Auth(g.path, GrantNonce(g), digest)))
  }

  predicate PreFor(g: Grant, len: nat)
    requires |g.rand| == BOOT_RANDOM_LEN && len < 0x1_0000_0000
  {
    g.pre == Tag(g.key, Layout(Pre(g.path, GrantNonce(g), len)))
  }

  /** Boot randoms do not repeat, and fewer than 2^32 requests are accepted between two boots. */
  predicate OrderlyStep(w: World, e: Event)
    requires Sane(w.b)
  {
    && (e.PowerCycle? ==> e.rand !in w.rands)
    && w.served < COUNTER_LIMIT
  }

  predicate Orderly(w: World, run: seq<Event>)
    requires Sane(w.b)
    decreases |run|
  {
    run == [] || (OrderlyStep(w, run[0]) && Orderly(Step(w, run[0]), run[1..]))
  }

  /** Where a grant stands: its boot is known, and in the current boot its count has been passed. */
  ghost predicate Placed(w: World, g: Grant) {
    GrantOk(g) && g.rand in w.rands && g.count < COUNTER_LIMIT && (g.rand == w.b.rand ==> g.count < w.served)
  }

  ghost predicate Inv(w: World) {
    && w.b.rand in w.rands
    && (!w.b.restarting ==> w.b.counter == w.served % COUNTER_LIMIT)
    && (forall i :: 0 <= i < |w.grants| ==> Placed(w, w.grants[i]))
    && (forall i, j :: 0 <= i < j < |w.grants| ==>
          w.grants[i].rand != w.grants[j].rand || w.grants[i].count != w.grants[j].count)
  }

  /** The grant of an accepted request carries that request's proofs for the current nonce. */
  lemma GrantOfRequest(w: World, e: Event)
    requires Sane(w.b) && Accepts(w.b, e) && w.b.counter == w.served % COUNTER_LIMIT
    ensures GrantOk(Grant(w.b.psk, PathOf(e), w.b.rand, w.served, e.auth, e.pre))
  {
    hide Layout;
    var g := Grant(w.b.psk, PathOf(e), w.b.rand, w.served, e.auth, e.pre);
    assert GrantNonce(g) == HttpNonce(w.b);
    if e.OtaRequest? {
      assert AuthFor(g, e.digest) && PreFor(g, e.len);
    } else {
      assert AuthFor(g, EMPTY_SHA) && PreFor(g, 0);
    }
  }

  lemma InvServe(w: World, e: Event)
    requires Sane(w.b) && Inv(w) && OrderlyStep(w, e) && !w.b.restarting && Accepts(w.b, e)
    ensures Inv(Step(w, e))
  {
    GrantOfRequest(w, e);
    hide GrantOk, Accepts, Layout;
    assert (w.served % COUNTER_LIMIT + 1) % COUNTER_LIMIT == (w.served + 1) % COUNTER_LIMIT;
  }

  lemma InvStep(w: World, e: Event)
    requires Sane(w.b) && Inv(w) && OrderlyStep(w, e)
    ensures Inv(Step(w, e))
  {
    if !e.PowerCycle? && !w.b.restarting && !e.ClaimRequest? && Accepts(w.b, e) {
      InvServe(w, e);
    } else {
      hide GrantOk, Accepts, Layout;
    }
  }

  lemma {:induction false} InvExec(w: World, run: seq<Event>)
    requires Sane(w.b) && Inv(w) && Orderly(w, run)
    ensures Inv(Exec(w, run))
    decreases |run|
  {
    hide Inv, Step, OrderlyStep;
    if run != [] {
      InvStep(w, run[0]);
      InvExec(Step(w, run[0]), run[1..]);
    }
  }

  lemma InvInitial(w: World)
    requires Initial(w)
    ensures Inv(w) && KeyInStep(w.b)
  {
    hide GrantOk;
  }

  /** Two nonces are equal exactly when they come from the same boot with counts equal modulo 2^32. */
  lemma NonceIff(g: Grant, h: Grant)
    requires |g.rand| == BOOT_RANDOM_LEN && |h.rand| == BOOT_RANDOM_LEN
    ensures GrantNonce(g) == GrantNonce(h) <==>
            g.rand == h.rand && g.count % COUNTER_LIMIT == h.count % COUNTER_LIMIT
  {
    var m, n := g.count % COUNTER_LIMIT, h.count % COUNTER_LIMIT;
    if GrantNonce(g) == GrantNonce(h) {
      hide Be32;
      ThreeParts([], g.rand, Be32(m), [], h.rand, Be32(n)) by {
        assert [] + g.rand == g.rand && [] + h.rand == h.rand;
      }
      Be32Injective(m, n);
    }
  }

  lemma SameProofSameNonce(g: Grant, h: Grant)
    requires GrantOk(g) && GrantOk(h)
    requires g.auth == h.auth || g.pre == h.pre
    ensures GrantNonce(g) == GrantNonce(h)
  {
    hide Layout;
    if g.auth == h.auth {
      var d, d' :| |d| == DIGEST_LEN && |d'| == DIGEST_LEN && AuthFor(g, d) && AuthFor(h, d');
      LayoutInjective(Auth(g.path, GrantNonce(g), d), Auth(h.path, GrantNonce(h), d'));
    } else {
      var n: nat :| n < 0x1_0000_0000 && PreFor(g, n);
      var n': nat :| n' < 0x1_0000_0000 && PreFor(h, n');
      LayoutInjective(Pre(g.path, GrantNonce(g), n), Pre(h.path, GrantNonce(h), n'));
    }
  }

  /** Over every run of requests, claims, unclaims and reboots no proof is accepted twice. */
  lemma NoProofTwice(w: World, run: seq<Event>, i: nat, j: nat)
    requires Initial(w) && Orderly(w, run)
    requires i < j < |Exec(w, run).grants|
    ensures
      var gs := Exec(w, run).grants;
      gs[i].auth != gs[j].auth && gs[i].pre != gs[j].pre
  {
    hide Exec, Orderly, Step, GrantOk;
    InvInitial(w);
    InvExec(w, run);
    var gs := Exec(w, run).grants;
    assert Placed(Exec(w, run), gs[i]) && Placed(Exec(w, run), gs[j]);
    if gs[i].auth == gs[j].auth || gs[i].pre == gs[j].pre {
      SameProofSameNonce(gs[i], gs[j]);
      NonceIff(gs[i], gs[j]);
    }
  }

  // ------------------------------------------------------------------
  // Authenticity: an accepted request was asked for by a holder of the key
  // ------------------------------------------------------------------

  lemma BoardNonceIff(b: Board, c: Board)
    requires Sane(b) && Sane(c)
    ensures HttpNonce(b) == HttpNonce(c) <==> b.rand == c.rand && b.counter == c.counter
  {
    hide Be32;
    NonceIff(Grant(b.psk, Ota, b.rand, b.counter, Garbage, Garbage), Grant(c.psk, Ota, c.rand, c.counter, Garbage, Garbage));
  }

  lemma BumpChangesNonce(b: Board)
    requires Sane(b)
    ensures HttpNonce(Bump(b)) != HttpNonce(b)
  {
    hide HttpNonce;
    BoardNonceIff(Bump(b), b);
  }

  lemma PreNeedsNonce(b: Board, c: Board, path: Path, len: nat, pre: Proof)
    requires Sane(b) && Sane(c) && len < 0x1_0000_0000 && HttpNonce(b) != HttpNonce(c)
    requires PreOk(b, path, len, pre)
    ensures !PreOk(c, path, len, pre)
  {
    hide Layout, HttpNonce;
    if PreOk(c, path, len, pre) {
      LayoutInjective(Pre(path, HttpNonce(b), len), Pre(path, HttpNonce(c), len));
    }
  }

  /** Where the nonce has moved on no check passes any more. */
  lemma ChecksNeedNonce(b: Board, c: Board, e: Event)
    requires Sane(b) && Sane(c) && PrePasses(b, e) && (HttpNonce(b) != HttpNonce(c) || !c.claimed)
    ensures !PrePasses(c, e) && !AuthPasses(c, e)
  {
    hide Layout, HttpNonce;
    if c.claimed {
      PreNeedsNonce(b, c, PathOf(e), if e.OtaRequest? then e.len else 0, e.pre);
    }
  }

  /** Spent means carried out: a request whose Auth proof has passed passes once more exactly when something failed after
      the check, which is an image that cannot be ended or switched to, or a key that cannot be erased. */
  lemma AuthPassesAgainIff(b: Board, e: Event)
    requires Sane(b) && !b.restarting && AuthPasses(b, e)
    ensures AuthPasses(Handle(b, e), e) <==> !CarriedOut(e)
  {
    hide Layout, HttpNonce;
    if CarriedOut(e) {
      BumpChangesNonce(b);
      ChecksNeedNonce(b, Handle(b, e), e);
    }
  }

  /** A Pre proof that has passed passes once more exactly when its request was not accepted: also after an upload that
      broke off or whose Auth proof was wrong. */
  lemma PrePassesAgainIff(b: Board, e: Event)
    requires Sane(b) && !b.restarting && PrePasses(b, e)
    ensures PrePasses(Handle(b, e), e) <==> !(AuthPasses(b, e) && CarriedOut(e))
  {
    hide Layout, HttpNonce;
    if Accepts(b, e) {
      BumpChangesNonce(b);
      ChecksNeedNonce(b, Handle(b, e), e);
    }
  }

  // ------------------------------------------------------------------
  // How long a proof stays good
  // ------------------------------------------------------------------

  /** A reboot, or a request that is accepted. */
  predicate Disturbs(b: Board, e: Event)
    requires Sane(b)
  {
    (e.PowerCycle? && |e.rand| == BOOT_RANDOM_LEN) || Accepts(b, e)
  }

  predicate Undisturbed(w: World, run: seq<Event>)
    requires Sane(w.b)
    decreases |run|
  {
    run == [] || (!Disturbs(w.b, run[0]) && Undisturbed(Step(w, run[0]), run[1..]))
  }

  /** The nonce of boot `rand` and count `n` is behind the board. */
  predicate Past(w: World, rand: seq<byte>, n: nat) {
    && rand in w.rands && (w.b.rand == rand ==> n < w.served)
    && (w.b.restarting ==> !w.b.claimed)
  }

  lemma PastStep(w: World, e: Event, rand: seq<byte>, n: nat)
    requires Sane(w.b) && OrderlyStep(w, e) && Past(w, rand, n)
    ensures Past(Step(w, e), rand, n)
  {
    hide Layout, AuthPasses;
  }

  lemma {:induction false} PastExec(w: World, run: seq<Event>, rand: seq<byte>, n: nat)
    requires Sane(w.b) && Orderly(w, run) && Past(w, rand, n)
    ensures Past(Exec(w, run), rand, n)
    decreases |run|
  {
    hide Step, Past, OrderlyStep;
    if run != [] {
      PastStep(w, run[0], rand, n);
      PastExec(Step(w, run[0]), run[1..], rand, n);
    }
  }

  /** What disturbs a claimed board puts its nonce behind it; nothing else changes the board. */
  lemma DisturbedOrSame(w: World, e: Event)
    requires Sane(w.b) && Inv(w) && OrderlyStep(w, e) && w.b.claimed && !w.b.restarting
    ensures Disturbs(w.b, e) ==> Past(Step(w, e), w.b.rand, w.served)
    ensures !Disturbs(w.b, e) ==> Step(w, e) == w
  {
    hide Layout, AuthPasses, Placed;
  }

  /** Past nonces are not the current one. */
  lemma PastNonce(w: World, b: Board, n: nat)
    requires Sane(w.b) && Sane(b) && Inv(w) && Past(w, b.rand, n) && w.served < COUNTER_LIMIT && b.counter == n < COUNTER_LIMIT
    ensures !w.b.claimed || HttpNonce(w.b) != HttpNonce(b)
  {
    hide Placed, HttpNonce;
    BoardNonceIff(w.b, b);
  }

  /** Over every run: the proofs of a request that pass now pass at the end of the run exactly when nothing was accepted
      and nothing rebooted in between, whatever was tried and failed. */
  lemma {:induction false} ProofLifetime(w: World, run: seq<Event>, e: Event)
    requires Sane(w.b) && Inv(w) && !w.b.restarting && PrePasses(w.b, e)
    requires Orderly(w, run) && Exec(w, run).served < COUNTER_LIMIT
    ensures PrePasses(Exec(w, run).b, e) <==> Undisturbed(w, run)
    ensures AuthPasses(w.b, e) ==> (AuthPasses(Exec(w, run).b, e) <==> Undisturbed(w, run))
    decreases |run|
  {
    assert w.b.claimed by { PassingIsClaimed(w.b, e); }
    hide Inv, Step, OrderlyStep, Disturbs, PrePasses, AuthPasses, Past, HttpNonce;
    if run != [] {
      DisturbedOrSame(w, run[0]);
      if Disturbs(w.b, run[0]) {
        var later := Exec(w, run);
        InvExec(w, run);
        PastExec(Step(w, run[0]), run[1..], w.b.rand, w.served);
        ServedFits(w, run);
        PastNonce(later, w.b, w.served);
        ChecksNeedNonce(w.b, later.b, e);
      } else {
        ProofLifetime(w, run[1..], e);
      }
    }
  }

  lemma PassingIsClaimed(b: Board, e: Event)
    requires Sane(b) && PrePasses(b, e)
    ensures b.claimed
  {
    hide Layout;
  }

  /** In an orderly run the counter has not wrapped yet. */
  lemma ServedFits(w: World, run: seq<Event>)
    requires Sane(w.b) && Inv(w) && !w.b.restarting && run != [] && Orderly(w, run)
    ensures w.served < COUNTER_LIMIT && w.b.counter == w.served
  {
    hide Placed, Accepts;
  }

  /** Every MAC presented under `k` is over a message some holder of `k` has said: for whatever purpose. */
  predicate OnlySaid(p: Proof, k: Key, said: set<Message>) {
    p.Tag? && p.key == k ==> exists m :: m in said && WellFormed(m) && p.msg == Layout(m)
  }

  lemma AcceptedWasSaid(b: Board, e: Event, said: set<Message>)
    requires Sane(b) && Accepts(b, e)
    requires OnlySaid(e.auth, b.psk, said) && OnlySaid(e.pre, b.psk, said)
    ensures
      && (exists digest :: Auth(PathOf(e), HttpNonce(b), digest) in said &&
                           (e.OtaRequest? ==> digest == e.digest) && (!e.OtaRequest? ==> digest == EMPTY_SHA))
      && (exists len :: Pre(PathOf(e), HttpNonce(b), len) in said &&
                        (e.OtaRequest? ==> len == e.len) && (!e.OtaRequest? ==> len == 0))
  {
    hide Layout;
    var digest := if e.OtaRequest? then e.digest else EMPTY_SHA;
    var len := if e.OtaRequest? then e.len else 0;
    var m :| m in said && WellFormed(m) && e.auth.msg == Layout(m);
    LayoutInjective(m, Auth(PathOf(e), HttpNonce(b), digest));
    var n :| n in said && WellFormed(n) && e.pre.msg == Layout(n);
    LayoutInjective(n, Pre(PathOf(e), HttpNonce(b), len));
  }

  // ------------------------------------------------------------------
  // Through the hex text
  // ------------------------------------------------------------------

  /** check_mac on the header text, for whatever function computes the MAC. */
  predicate HeaderOk(b: Board, msg: seq<byte>, header: string, mac: (Key, seq<byte>) -> seq<byte>) {
    b.claimed && |header| == 64 && Unhex(header) == Some(mac(b.psk, msg))
  }

  function HexToNonce(text: string): Option<seq<byte>> {
    if |text| != 2 * HTTP_NONCE_LEN then None else Unhex(text)
  }

  /** An unclaimed board passes no proof of either kind, not even one made with the all-zero key it holds in RAM, and no
      header. */
  lemma UnclaimedPassesNothing(b: Board, path: Path, digest: seq<byte>, len: nat, proof: Proof, msg: seq<byte>, header: string,
                               mac: (Key, seq<byte>) -> seq<byte>)
    requires Sane(b) && !b.claimed && |digest| == DIGEST_LEN && len < 0x1_0000_0000
    ensures !AuthOk(b, path, digest, proof) && !PreOk(b, path, len, proof) && !HeaderOk(b, msg, header, mac)
  {
  }

  /** A header is accepted exactly when it is the hex of the right MAC, in any letter case. */
  lemma HeaderIff(b: Board, msg: seq<byte>, header: string, mac: (Key, seq<byte>) -> seq<byte>)
    requires |mac(b.psk, msg)| == 32
    ensures HeaderOk(b, msg, header, mac) <==> b.claimed && Lower(header) == Hex(mac(b.psk, msg))
  {
    UnhexIff(header, mac(b.psk, msg));
  }

  /** A client that holds the key and reads the current nonce from the status page gets both of its headers accepted. */
  lemma HonestRequestAccepted(b: Board, path: Path, digest: seq<byte>, len: nat, mac: (Key, seq<byte>) -> seq<byte>)
    requires Sane(b) && b.claimed && |digest| == DIGEST_LEN && len < 0x1_0000_0000
    requires forall msg :: |mac(b.psk, msg)| == 32
    ensures
      var nonce := HexToNonce(Hex(HttpNonce(b)));
      && nonce == Some(HttpNonce(b))
      && var auth, pre := Layout(Auth(path, nonce.value, digest)), Layout(Pre(path, nonce.value, len));
         && HeaderOk(b, auth, Hex(mac(b.psk, auth)), mac) && AuthOk(b, path, digest, Tag(b.psk, auth))
         && HeaderOk(b, pre, Hex(mac(b.psk, pre)), mac) && PreOk(b, path, len, Tag(b.psk, pre))
  {
    hide Layout;
    HexRoundTrip(HttpNonce(b));
    HexRoundTrip(mac(b.psk, Layout(Auth(path, HttpNonce(b), digest))));
    HexRoundTrip(mac(b.psk, Layout(Pre(path, HttpNonce(b), len))));
  }
}
